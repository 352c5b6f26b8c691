# Verified core of the SQL converter

This project models the text and tree algorithms of the converter and proves what they promise. Every
module names the source file it stands for. There is no database, parser or clock in it: engines, regex
tables and library functions are parameters, and each theorem holds for every value of them.

The modules fall into six groups.

- **Rewrites that must keep a statement's meaning.** `Merge` (MERGE to INSERT ... ON DUPLICATE KEY UPDATE),
  `Relations` (PIVOT and UNPIVOT) and `RowCaps` (DELETE and UPDATE with a row limit) give the source form
  and the emitted form a meaning on tables and prove the two equal.
- **Printing and reading back.** `Precedence` prints operator trees with the parentheses the emitter gives back, and
  proves exactly when an engine reads the text as that tree, or as one of the same value.
- **A rewrite iterated to a fixpoint.** `Concat` compares the repeated, pruned, top-down passes that turn
  `+` into `||` with one bottom-up pass.
- **Splitters and scanners.** `SemicolonSplit`, `GoSplit`, `PgSplit`, `MysqlSplit`, `Qualify` and `Scrub`
  keep the loops of the source and prove them against automata that read one character (or one line) at a
  time; tiling, re-splitting and conservation are proved about the automata. What these find is pinned from
  outside: scripts are put together from tokens and blocks, and splitting them returns just what was put in.
- **Weighted alignment.** `Similarity` proves the denominator, the bounds, one-to-one matching, the two
  self-similarity laws and exactly when two units are fully similar, over real numbers.
- **Smaller cores.** `Months` (Oracle month arithmetic over serial day numbers), `TypeEnv` (soundness and
  completeness of derived-column types), `PageSplit` (split and reconstruct a page) and `DiffLines` (line numbers of a
  unified diff). `Text` and `Basics` hold what they share.

## Where the code falls short of its promise

Each of these is stated as an exact condition or as a concrete counterexample; the code is modelled as it is.

- `Merge.FaithfulIff`: the ON clause is read only for a comment. The rewrite is faithful exactly when ON matches
  no row but one with the key the source row is inserted under; `Merge.CanonicalIff` reads that off the text, and
  `Merge.KeyIsNotChecked` is a MERGE that is rewritten and changes meaning. Where key columns are assigned,
  `Merge.MovingIff` is the condition and `Merge.KeyIsMoved` the example.
- `Relations.PivotIff`: the columns of an aggregated expression stay among the grouping columns. The emitted query
  is right exactly when there are none; `Relations.ExpressionSplitsGroups` is a PIVOT where there are.
- `Precedence.TargetReadBackIff` and `Precedence.TargetMeansIff`: one table of precedences serves four engines. A right
  operand of its operator's own level keeps its parentheses only under `-`, `/`, `%` and shifts, and MySQL's levels
  of bitwise operators and PostgreSQL's level of concatenation are not in the table. `Precedence.WrongLeft` and
  `Precedence.WrongRight` list, target by target, exactly the operands that are misread; `ProductOfQuotient`,
  `MySqlAndOverOr` and `PostgreSqlSumOfText` are three of them.
- `RowCaps.OracleCapIff`: `w AND ROWNUM <= n` binds `ROWNUM` to the last operand of an unparenthesised
  top-level OR. For each cap n, `RowCaps.OracleCapAtIff`, Oracle's unordered form is right on every table exactly when
  no row that satisfies an earlier operand can stand with n other matching rows. An expanded row-tuple inequality
  counts as an OR there (`RowCaps.TupleIsOr`), and under AND it is misread on Oracle and T-SQL (`RowCaps.TupleUnderAnd`).
- `Concat.PassesIff`: the bound of 64 passes is met exactly by the trees whose concatenations are nested at most
  64 deep; `Concat.SixtyFiveTooMany` is the chain that is not.
- `GoSplit.ReSplitIff`: a batch is returned unchanged exactly when stripping has not made its first or last
  line a GO line; `GoSplit.FormFeedExposesGo` is a script where it has.
- `SemicolonSplit.LiteralEndsIff`: for PostgreSQL an odd number of `$$` in a literal opens a body that its
  closing quote does not close, and nothing is cut any more (`SemicolonSplit.DollarsInLiteral`). By
  `SemicolonSplit.PrintSplit` an END closes the innermost open block whatever it belongs to, the END of a CASE
  included.
- `MysqlSplit.OffsetIs`: a statement behind another one on its line is reported one line too low.
- `TypeEnv.InferenceSoundIff` and `TypeEnv.TaggingSoundIff`: types are inferred by name, from the first arm of a
  chain of set operations and from a CTE whatever hides or renames it. They are right on every engine exactly when each inferred kind
  is also guaranteed by position; `SetOperationUnsound`, `ChainUnsound`, `QualifiedTableUnsound`, `RoutineUnsound` and
  `RenamedCteUnsound` are queries where it is not, each with an engine that shows it.
- `Scrub.NewlinesKeptIff` and `Scrub.ScrubTwiceIff`: newlines inside literals are lost, although the
  documentation of `scrub` says newlines are kept; scrubbing twice is scrubbing once only under a condition.
- `PageSplit.RoundTripIff`: the run aborts on a page that does not start with a heading, on one with a
  title that has nothing under it, and on one whose titles do not all have the same text under them.
- `DiffLines.TracksIff`: added lines that start with `++ b/`, no-newline markers before added lines, and
  boundaries of `str.splitlines` inside added lines or before them break the yields; `FormFeedInAdded` and
  `FormFeedInContext` are two such diffs. Files with CRLF line ends lose only the carriage return (`CrlfTracks`).

## Model

| member | source | states |
|---|---|---|
| SemicolonSplit.SplitSemicolons | src/unique/core/sql_split.py:170-250 | the character loop with its look-aheads returns exactly the non-blank stripped segments between the separators an automaton finds |
| SemicolonSplit.Tiling | src/unique/core/sql_split.py:200-250 | the raw segments joined by `;` are the text: nothing is lost, added or moved |
| SemicolonSplit.ReSplit | src/unique/core/sql_split.py:170-250 | splitting any returned statement again gives just that statement, despite stripping and the look-ahead after BEGIN |
| SemicolonSplit.StatementsComeBack | src/unique/core/sql_split.py:170-250 | statements written with a semicolon each are what splitting returns: blocks nested to any depth, literals, comments and bodies that hold semicolons, and BEGIN on its own or before TRANSACTION, WORK or ISOLATION |
| SemicolonSplit.PrintSplit | src/unique/core/sql_split.py:216-242 | any script put together from tokens is divided exactly at the semicolons outside all blocks, a block being opened by a BEGIN that begins no transaction and closed by an END |
| SemicolonSplit.LiteralEndsIff | src/unique/core/sql_split.py:205-215 | a literal ends at its closing quote if and only if the `$$` in it, where they count, are even in number |
| SemicolonSplit.DollarsInLiteral | src/unique/core/sql_split.py:205-209 | after a literal that holds one `$$` nothing is cut any more |
| Concat.RewriteTsqlStringConcat | src/unique/core/converter/_base.py:555-600 | the loop with its early exit is 64 passes, and ends in the bottom-up tree if and only if concatenations are nested at most 64 deep |
| Concat.PassesIff | src/unique/core/converter/_base.py:589-600 | `n` passes end in the tree of one bottom-up pass if and only if its concatenations are nested at most `n` deep: the exact number of passes of any tree |
| Concat.NestingPass | src/unique/core/converter/_base.py:569-600 | a pass takes one level of nesting off, neither more nor less |
| Concat.NestingAtMostAdds | src/unique/core/converter/_base.py:589-600 | levels of nesting and additions that stay are together no more than the additions of the tree |
| Concat.PassKeepsBottomUp | src/unique/core/converter/_base.py:569-600 | a pruned top-down pass never changes what a bottom-up pass makes of the tree |
| Concat.BottomUpUnique | src/unique/core/converter/_base.py:555-587 | the bottom-up tree is the only one that converts nothing but string additions and leaves none of them |
| Concat.SixtyFourLevels | src/unique/core/converter/_base.py:545-600 | up to 64 levels, so always with at most 64 additions, the result is a fixpoint, keeps the order of the leaves, converts no addition of a numeric literal and leaves no concatenation |
| Concat.PassesOnlyConcats | src/unique/core/converter/_base.py:569-600 | whatever the number of passes, they only turn string additions without numeric literals into concatenations |
| Concat.OnlyConcatsLeaves | src/unique/core/converter/_base.py:569-600 | such a change keeps all leaves in their order |
| Concat.NoneLeftIsFixpoint | src/unique/core/converter/_base.py:589-600 | a tree is a fixpoint of the pass exactly when no convertible addition is left anywhere in it |
| Concat.SixtyFiveTooMany | src/unique/core/converter/_base.py:593-600 | an instance of the exact bound: a chain is fully converted if and only if it has at most 64 links |
| Merge.ValueToColumn | src/unique/core/converter/_base.py:662-665 | the dictionary knows exactly the inserted values, each with a column it is inserted into |
| Merge.MergeToUpsert | src/unique/core/converter/_base.py:617-700 | a rewrite is produced exactly for the accepted shape, and each assignment stands for its SET item |
| Merge.AssignmentValue | src/unique/core/converter/_base.py:667-679 | VALUES(col) evaluates to the UPDATE right-hand side it replaced, for every matched row |
| Merge.SetsAgree | src/unique/core/converter/_base.py:667-679 | left-to-right assignments give the row that simultaneous SET items give |
| Merge.UpsertIsMerge | src/unique/core/converter/_base.py:617-700 | for any ON clause: where ON matches no row but one with the key the source row is inserted under, row-by-row upsert over an error-free source leaves the table MERGE leaves against the snapshot |
| Merge.KeyMustAgree | src/unique/core/converter/_base.py:693-700 | one row matched under another key than it would be inserted under is enough to make the forms differ |
| Merge.FaithfulIff | src/unique/core/converter/_base.py:617-700 | the rewrite keeps the meaning on all tables and sources if and only if ON, whatever it is, matches only rows with the key the source row is inserted under |
| Merge.CanonicalIsFaithful | src/unique/core/rationales.py:79-87 | inserting into each key column an expression that ON compares it with, the canonical form, is enough, whatever else ON asks |
| Merge.CanonicalIff | src/unique/core/rationales.py:79-87 | for an ON clause that compares the key columns: the rewrite is right on every engine if and only if it is canonical, or ON compares with NULL and never matches |
| Merge.FreeInjective | src/unique/core/converter/_base.py:617-700 | there is an engine and a row on which different source expressions have different values |
| Merge.KeyIsNotChecked | src/unique/core/converter/_base.py:617-700 | a concrete MERGE that is rewritten although its meaning changes on an engine that is given |
| Merge.MovingIff | src/unique/core/converter/_base.py:617-700 | where key columns are assigned and ON matches by the inserted key: the rewrite is faithful if and only if no row can move to the key of another that moves on in its turn |
| Merge.PrefixMoves | src/unique/core/converter/_base.py:617-700 | otherwise an error-free MERGE is error-free after each of its source rows, keys checked at once |
| Merge.KeptKeyIsFaithful | src/unique/core/converter/_base.py:617-700 | assigning a key column the value inserted into it moves no row and is faithful |
| Merge.KeyIsMoved | src/unique/core/converter/_base.py:617-700 | a concrete MERGE that moves keys, is rewritten and changes meaning |
| Precedence.ReadBackIff | src/unique/core/converter/emit_expr.py:1079-1106 | for any levels of the reading engine and any choice of operators spelled as calls: the text is read as the tree it was printed from if and only if no bare operand binds looser than its place asks and call chains lean to the left |
| Precedence.TableReadBackIff | src/unique/core/converter/emit_expr.py:1014-1106 | read with the levels of the table itself: back to the tree if and only if no right operand of the same level has lost its parentheses |
| Precedence.CrossingIsSafe | src/unique/core/converter/emit_expr.py:1041-1101 | what the crossing rule is for: engines that differ only in how bitwise operators bind against arithmetic read the text alike, as long as it does not mix bitwise operators with text |
| Precedence.BothFamilies | src/unique/core/converter/emit_expr.py:1041-1043 | an engine of each family, alike in that sense |
| Precedence.EitherFamily | src/unique/core/converter/emit_expr.py:1088-1101 | a target read with its bitwise operators above all others instead reads back the same trees, text and bits not mixed |
| Precedence.TargetReadBackIff | src/unique/core/converter/emit_expr.py:1014-1106 | for MySQL, T-SQL, PostgreSQL and Oracle, with their own levels and calls: read back as the tree if and only if it has none of the operands listed for the target, on the left or on the right |
| Precedence.PlacedIsKept | src/unique/core/converter/emit_expr.py:1014-1106 | those lists are exactly the operands that the levels of the target put in the wrong place |
| Precedence.TargetMeansIff | src/unique/core/converter/emit_expr.py:1014-1106 | without laws for the operators, the text has the value of the tree on every engine under the same condition |
| Precedence.ReadLeaves | src/unique/core/converter/emit_expr.py:1079-1106 | reading loses no operand and makes up none |
| Precedence.MeansWhenRegroupable | src/unique/core/converter/emit_expr.py:1070-1106 | where no bare operand binds looser than it must and the engine regroups the operators of equal level in question, the text has the value of the tree on each target |
| Precedence.ProductOfQuotient | src/unique/core/converter/emit_expr.py:1070-1106 | `2 * (1 / 2)` is printed without parentheses for every target and changes its value where integers are divided |
| Precedence.MySqlAndOverOr | src/unique/core/converter/emit_expr.py:1031-1033 | an AND over a bitwise OR of 4 and 1 is printed bare, and MySQL takes the AND first: 5 instead of 1 |
| Precedence.PostgreSqlSumOfText | src/unique/core/converter/emit_expr.py:1036-1038 | a sum of a concatenation is printed bare, and PostgreSQL takes the `+` first |
| RowCaps.EmitMeans | src/unique/core/converter/emit_expr.py:1012-1110 | the condition text, read back with SQL precedence, has the truth value of the condition, three-valued |
| RowCaps.OrderedHits | src/unique/core/converter/emit_relations.py:218-244 | every target's ordered DELETE or UPDATE hits exactly the first n matching rows by the order, however the table is scanned |
| RowCaps.OrderedCount | src/unique/core/converter/emit_relations.py:218-244 | ordered plans hit min(n, matches) rows, none twice |
| RowCaps.OrderedTargetsAgree | src/unique/core/converter/emit_relations.py:311-349 | any two targets leave identical tables, each scanning in its own order |
| RowCaps.UnorderedHits | src/unique/core/converter/emit_relations.py:218-244 | unordered plans hit exactly min(n, matches) rows, all matching, none twice; on Oracle when no row escapes the cap |
| RowCaps.AppendMeans | src/unique/core/converter/emit_relations.py:231-238 | what `w AND ROWNUM <= n` says after SQL has read it: the cap joins the last OR operand only |
| RowCaps.EscapersAreHit | src/unique/core/converter/emit_relations.py:231-238 | a row that satisfies an earlier operand of a top-level OR is hit whatever the cap |
| RowCaps.OracleCapAtIff | src/unique/core/converter/emit_relations.py:231-238 | for each cap n: a correct choice on every table, in any order, if and only if no row that satisfies such an operand can stand with n other matching rows |
| RowCaps.LateHit | src/unique/core/converter/emit_relations.py:231-238 | a hit beyond the cap is always one that escapes it |
| RowCaps.OracleCapIff | src/unique/core/converter/emit_relations.py:231-238 | Oracle's unordered cap is a correct choice on every table and for every cap if and only if no row can satisfy such an operand |
| RowCaps.TupleIsOr | src/unique/core/converter/emit_expr.py:2163-2172 | a row-tuple inequality, expanded for Oracle and T-SQL, is the text of the OR of its tests, so the cap escapes there as well |
| RowCaps.TupleUnderAnd | src/unique/core/converter/emit_expr.py:2163-2172 | as an operand of AND it gets no parentheses, and the condition holds of rows it must not |
| RowCaps.RownumTakes | src/unique/core/converter/emit_relations.py:231-238 | a counter that advances only on accepted rows keeps a prefix |
| Relations.UnpivotCarriedColumns | src/unique/core/converter/emit_relations.py:78-95 | the carried columns are those of the source not unpivoted, case ignored; none when a column has no visible name |
| Relations.EmitUnpivotRelation | src/unique/core/converter/emit_relations.py:98-131 | one UNION ALL arm a column, with its carried columns, name and NULL filter; over rows of the visible columns the union has the rows of native UNPIVOT |
| Relations.UnpivotSameRows | src/unique/core/converter/emit_relations.py:98-131 | the UNION ALL returns the multiset of rows of the native operator, which goes row by row and carries the row without its unpivoted columns |
| Relations.ProjectIsRest | src/unique/core/converter/emit_relations.py:78-95 | selecting the names left over is dropping the excluded columns from the row |
| Relations.NativeCount | src/unique/core/converter/emit_relations.py:98-131 | native UNPIVOT, going row by row, returns the sum of the per-column counts of shown cells |
| Relations.PivotGroupColumns | src/unique/core/converter/emit_relations.py:134-151 | the grouping columns are those that are neither pivot nor argument column, case ignored |
| Relations.EmitPivotRelation | src/unique/core/converter/emit_relations.py:154-203 | one CASE aggregate an IN value over those grouping columns |
| Relations.HashIsFold | src/unique/core/converter/emit_relations.py:154-203 | one-pass grouping of CASE values is the fold of what native PIVOT aggregates for the group and the IN value |
| Relations.PivotSameTable | src/unique/core/converter/emit_relations.py:154-203 | grouped like native PIVOT, which drops the columns it mentions from the row, CASE aggregates return its table, for every aggregate that skips NULLs |
| Relations.PivotIff | src/unique/core/converter/emit_relations.py:134-203 | over any rows the emitted query returns the table of native PIVOT if and only if no column of an aggregated expression is left to group by; with a plain column as argument it always does |
| Relations.ExpressionSplitsGroups | src/unique/core/converter/emit_relations.py:149-151 | SUM(a * b) leaves `a` and `b` among the grouping columns and changes the table |
| Months.MonthStep | src/unique/core/mappings.py:1168-1184 | months over serial day numbers follow each other without gap or overlap, leap years included |
| Months.DecodeEncode | src/unique/core/mappings.py:1168-1184 | month and day decoding is the inverse of encoding |
| Months.AddMonthsDecoded | src/unique/core/mappings.py:1168-1184 | ADD_MONTHS lands in the target month, on its last day for a last day |
| Months.FormulaIsDateAdd | src/unique/core/mappings.py:1168-1184 | the emitted formula is DATEADD for every date, time of day and number of months, negative ones too |
| Months.DateAddDecoded | src/unique/core/mappings.py:1168-1184 | the result is in the target month, on the source day or the month's last, with the time unchanged |
| Months.CorrectionNeeded | src/unique/core/mappings.py:1168-1184 | plain ADD_MONTHS is wrong if and only if the date ends a month shorter than the target month |
| Months.YearsLater | src/unique/core/mappings.py:1168-1184 | whole years change the day only for 29 February to a common year |
| Qualify.QualifyFunctionCalls | src/unique/core/sql_split.py:314-401 | the loop with its inner loops computes the token-wise specification |
| Qualify.QuoteEnd | src/unique/core/sql_split.py:349-362 | the quote loop stops after the closing quote, doubled quotes skipped |
| Qualify.IsCalled | src/unique/core/sql_split.py:378-381 | a name is called exactly when a parenthesis follows blanks and tabs |
| Qualify.Idempotent | src/unique/core/sql_split.py:314-401 | qualifying twice is qualifying once, for every pure choice of identifier prefixes |
| Qualify.OnlyInserts | src/unique/core/sql_split.py:314-401 | the result is the input with prefixes inserted at increasing positions and nothing else changed |
| Qualify.InsertedInCode | src/unique/core/sql_split.py:314-401 | nothing is inserted inside a literal, comment or delimited identifier, nor after a dot, at sign or colon |
| Qualify.InsertedIff | src/unique/core/sql_split.py:314-401 | a prefix is inserted at a position if and only if a word begins there in code, an opening parenthesis follows it after blanks and tabs, no dot, at sign or colon stands before it, and it is the choice for that word and the bare word before it, read backwards from the text |
| Qualify.InsertedOnce | src/unique/core/sql_split.py:314-401 | the positions rise: no name gets two prefixes |
| Qualify.WordCarried | src/unique/core/sql_split.py:331-400 | the word the loop remembers is the last token before the position, white space and comments skipped, if that is a word |
| Qualify.TokenKeepsCode | src/unique/core/sql_split.py:333-401 | a token that starts in code ends in code, against a one-character automaton |
| Similarity.BestPartner | src/unique/core/similarity.py:996-1003 | the inner loop finds the first remaining partner of greatest similarity above 0 |
| Similarity.GreedyLoop | src/unique/core/similarity.py:990-1011 | the accumulating loops compute the recursive greedy result |
| Similarity.AlignLoop | src/unique/core/similarity.py:1014-1044 | the opcode loop and the pooled remainder compute the recursive alignment |
| Similarity.PairFair | src/unique/core/similarity.py:983-987 | the score of a pair lies between 0 and its joint weight, is all of it exactly when the two are the same and 0 exactly when they share nothing |
| Similarity.AlignDen | src/unique/core/similarity.py:1014-1044 | for any opcodes that tile both lists the denominator is the total weight of both |
| Similarity.AlignFair | src/unique/core/similarity.py:1014-1044 | the numerator lies between 0 and the denominator |
| Similarity.MatchedOnce | src/unique/core/similarity.py:1014-1044 | no unit of either list is matched twice |
| Similarity.WeightPositive | src/unique/core/similarity.py:955-962 | every unit has a positive weight |
| Similarity.SimilarityBounded | src/unique/core/similarity.py:965-980 | similarity lies between 0 and 1 on trees of any depth |
| Similarity.SelfSimilar | src/unique/core/similarity.py:965-980 | a unit whose carriers have text is fully similar to itself |
| Similarity.SelfAligned | src/unique/core/similarity.py:1014-1044 | a list aligned with itself matches all of its weight |
| Similarity.SameIff | src/unique/core/similarity.py:965-980 | two units are fully similar if and only if they are the same, at any depth: carriers with the same text, leaves of one kind without a difference, or containers all of whose children are paired with one that is the same |
| Similarity.NothingInCommon | src/unique/core/similarity.py:965-978 | one carrier against a parsed statement, two leaves of different kinds and two carriers of different texts score 0 |
| Similarity.ShareOfWeight | src/unique/core/similarity.py:973-980 | leaves of one kind score their tree diff; containers the share of their children's weight that is matched |
| Similarity.AlignTallied | src/unique/core/similarity.py:1014-1044 | the numerator is the sum over the matches of similarity times joint weight |
| Similarity.AlignFull | src/unique/core/similarity.py:1014-1044 | all weight is matched if and only if every unit of both lists is paired and each pair fully similar |
| Similarity.OneSidedCarrier | src/unique/core/similarity.py:990-1044 | a carrier that has only parsed statements on the other side, or a statement that has only carriers there, keeps at least its weight out of the numerator |
| Similarity.WeightIs | src/unique/core/similarity.py:955-962 | a unit weighs what its carriers, containers, bare leaves and trees, counted over all levels, weigh |
| Similarity.PermutationMatches | src/unique/core/similarity.py:990-1011 | greedy matching of a list with any permutation matches every unit fully, when full similarity is an equivalence |
| TypeEnv.InferLoop | src/unique/core/converter/type_env.py:94-108 | the column loop computes the inferred environment |
| TypeEnv.TemporalIff | src/unique/core/converter/type_env.py:55-116 | a name is inferred to be of a kind if and only if the last output of that name that is a date literal, a conversion to a temporal type or a reference to such an output of the derived table or CTE below is of that kind, at any depth, where derived tables carry the inference of their queries as the converter records it |
| TypeEnv.TemporalColumnInferred | src/unique/core/converter/type_env.py:94-108 | with distinct output names every such column is inferred |
| TypeEnv.TypeKindIff | src/unique/core/converter/type_env.py:50-71 | a type counts as a date or a timestamp if and only if it is spelled as one, in any case, between white space, with or without a parenthesis after it |
| TypeEnv.FindCte | src/unique/core/converter/type_env.py:78-116 | the first CTE of a name is the one the query sees under it, with its shape |
| TypeEnv.ChainFrom | src/unique/core/converter/convert.py:1791-1912 | the rows of a flat chain, read from the left, are those of its first query or of a UNION arm, wherever that stands |
| TypeEnv.ShapeFits | src/unique/core/converter/type_env.py:55-116 | the reference typing, by position and with every UNION arm of a flat chain, aliases and hidden sources, holds in every row on every engine, whether INTERSECT binds tighter there or not |
| TypeEnv.ShapeExact | src/unique/core/converter/type_env.py:55-116 | and it is exact: on an adverse engine each kind it does not guarantee is refuted by a row |
| TypeEnv.InferenceSoundIff | src/unique/core/converter/type_env.py:94-108 | for every query whose set operations are UNIONs: the inference is right on every engine if and only if each inferred kind is guaranteed by position |
| TypeEnv.InferenceSound | src/unique/core/converter/type_env.py:55-116 | in nested plain queries, without a UNION anywhere in their chains, a column inferred date or timestamp holds only NULL or that kind, on every engine and within any CTEs |
| TypeEnv.HiddenSourceIff | src/unique/core/converter/type_env.py:78-91 | over a qualified table or a set-returning function the inference is right if and only if no output column is a reference to a name it knows |
| TypeEnv.UnionSoundIff | src/unique/core/converter/type_env.py:94-108 | over a chain of UNIONs it is right if and only if all arms guarantee the inferred kind, column by column |
| TypeEnv.TailRefutes | src/unique/core/converter/type_env.py:94-108 | whatever set operations a chain begins with, a UNION arm at its end that does not guarantee the inferred kind makes the inference wrong, on an engine that is given |
| TypeEnv.TagOnlyTags | src/unique/core/converter/type_env.py:119-142 | tagging changes only tags, and a second time nothing |
| TypeEnv.TaggedIff | src/unique/core/converter/type_env.py:119-157 | a reference anywhere in an output column carries a tag afterwards if and only if it did before, or has no qualifier and the source has a date or a timestamp of that kind under its name |
| TypeEnv.NestedUntagged | src/unique/core/converter/type_env.py:130-131 | a nested query in an output column is left as it is |
| TypeEnv.EvalTagged | src/unique/core/converter/type_env.py:119-142 | values do not depend on tags |
| TypeEnv.TaggingSoundIff | src/unique/core/converter/type_env.py:145-157 | the tags are right on every engine if and only if every tagged reference is to a column whose guarantee allows the tag |
| TypeEnv.TaggingSound | src/unique/core/converter/type_env.py:145-157 | every tag put on a column of a plain query is right in every row of its source |
| TypeEnv.SetOperationUnsound | src/unique/core/converter/type_env.py:94-108 | a UNION whose inferred type is wrong on an engine that is given |
| TypeEnv.ChainUnsound | src/unique/core/converter/type_env.py:94-108 | an EXCEPT followed by a UNION ALL of another type: the chain is read from the left and the inferred type is wrong |
| TypeEnv.QualifiedTableUnsound | src/unique/core/converter/type_env.py:78-91 | a qualified table with the name of a CTE gets the wrong types, on an engine that is given |
| TypeEnv.RoutineUnsound | src/unique/core/converter/type_env.py:86-90 | so does a set-returning function called like a CTE |
| TypeEnv.RenamedCteUnsound | src/unique/core/converter/type_env.py:86-90 | a CTE read under other column names gets the types crosswise |
| GoSplit.SplitOnToplevelGo | src/unique/core/batch_splitter.py:260-303 | the scanning loop returns the slices between the GO lines an automaton reads in code at a line start |
| GoSplit.SplitTsql | src/unique/core/batch_splitter.py:488-506 | every batch carries the number of newlines before its raw part |
| GoSplit.Tiling | src/unique/core/batch_splitter.py:260-303 | the parts with the GO lines put back are the script, and each GO line was found in code |
| GoSplit.PrintSplit | src/unique/core/batch_splitter.py:260-303 | any script put together from tokens is divided exactly at its GO lines, and not at a GO in a literal or a comment or on a line with anything else |
| GoSplit.GoEndIff | src/unique/core/batch_splitter.py:231 | a GO line is blanks, GO in any case, blanks, and a line end or the end of the script |
| GoSplit.GoLineNewline | src/unique/core/batch_splitter.py:488-506 | a GO line holds one newline, except at the end of the script |
| GoSplit.OffsetStep | src/unique/core/batch_splitter.py:497-506 | the running counter is the line of the next raw part unless nothing is left |
| GoSplit.ReSplitIff | src/unique/core/batch_splitter.py:260-303 | a batch splits into itself again if and only if stripping exposed no GO line |
| GoSplit.ReSplit | src/unique/core/batch_splitter.py:260-303 | in a script whose white space is blanks, tabs and LF or CRLF line ends every batch re-splits to itself |
| GoSplit.FormFeedExposesGo | src/unique/core/batch_splitter.py:260-303 | a form feed before GO hides it until it is stripped |
| PgSplit.SplitPostgresql | src/unique/core/batch_splitter.py:700-797 | the loop returns the batches, texts and lines, that the automaton's cuts define |
| PgSplit.FindDollarClose | src/unique/core/batch_splitter.py:799-830 | the closing tag is the first one outside the `--` comments and literals of the body |
| PgSplit.StringEnd | src/unique/core/batch_splitter.py:748-768 | a literal, with backslash escapes or not, is passed over without a cut |
| PgSplit.DollarEnd | src/unique/core/batch_splitter.py:775-785 | a dollar-quoted body is passed over without a cut |
| PgSplit.Tiling | src/unique/core/batch_splitter.py:700-797 | the raw batches one after the other are the script |
| PgSplit.BatchesArePartsOf | src/unique/core/batch_splitter.py:700-797 | the batches are the stripped non-blank slices of that tiling |
| PgSplit.OffsetIsNextLine | src/unique/core/batch_splitter.py:786-797 | a later batch is reported on the line after the newline that follows its predecessor's semicolon |
| PgSplit.ReSplit | src/unique/core/batch_splitter.py:700-797 | splitting any returned batch again returns just that batch |
| PgSplit.BatchesComeBack | src/unique/core/batch_splitter.py:700-797 | batches written with a semicolon and a newline each are what splitting returns, each with the line it begins on: code, comments, literals of both kinds, quoted names, and bodies between `$name$` and `$name$` |
| PgSplit.PrintSplit | src/unique/core/batch_splitter.py:700-797 | any script put together from tokens is divided exactly after the semicolons that end their line |
| PgSplit.TagLenIff | src/unique/core/batch_splitter.py:697 | a tag of some length begins at a position if and only if a dollar sign, a name and a dollar sign of that length stand there |
| MysqlSplit.SplitLineSemis | src/unique/core/batch_splitter.py:423-457 | a line is cut at the semicolons outside literals and parentheses |
| MysqlSplit.SegmentsSquash | src/unique/core/batch_splitter.py:423-457 | the segments of a line are the line, white space aside |
| MysqlSplit.CloseEndsLoop | src/unique/core/batch_splitter.py:927-934 | END words close one level each, never below 0, and 0 leaves the routine |
| MysqlSplit.Splitter.constructor | src/unique/core/batch_splitter.py:841-846 | the scan starts with nothing read, outside a routine, with `;` as delimiter |
| MysqlSplit.Splitter.Emit | src/unique/core/batch_splitter.py:866-873 | a piece is recorded with its line, and gives a batch unless it is blank |
| MysqlSplit.Splitter.FlushTo | src/unique/core/batch_splitter.py:861-875 | the pending lines become a piece, shorn of one final semicolon |
| MysqlSplit.Splitter.AddLineSegments | src/unique/core/batch_splitter.py:904-912 | each segment of a line with several statements is emitted in turn |
| MysqlSplit.Splitter.TrackLine | src/unique/core/batch_splitter.py:914-934 | entering a routine and counting BEGIN, CASE and END over a line |
| MysqlSplit.Splitter.CompleteLine | src/unique/core/batch_splitter.py:936-953 | a line that ends with the delimiter completes the batch and sheds it |
| MysqlSplit.Splitter.ScanLine | src/unique/core/batch_splitter.py:877-953 | one turn of the line loop is one step of the specification |
| MysqlSplit.SplitMysql | src/unique/core/batch_splitter.py:833-965 | the batches are those of the specified scan over the lines |
| MysqlSplit.NothingLost | src/unique/core/batch_splitter.py:833-965 | white space aside, the pieces in order with their shed terminators are the script without its DELIMITER lines |
| MysqlSplit.DepthAlwaysOk | src/unique/core/batch_splitter.py:833-965 | at every line end the depth is at least 0, and it is 0 outside a routine |
| MysqlSplit.DroppedPieces | src/unique/core/batch_splitter.py:866-873 | only pieces without text give no batch |
| MysqlSplit.OffsetIs | src/unique/core/batch_splitter.py:875-912 | a batch is reported on the line it begins on, unless another statement of that line comes before it: then exactly one line down |
| MysqlSplit.UnitsComeBack | src/unique/core/batch_splitter.py:833-965 | a script of statements, routines, lines of several statements, DELIMITER lines and delimited texts is divided into these, a routine ending with the first line by which every BEGIN and CASE in it has met its END; each is reported on its first line |
| MysqlSplit.LinePrintSplit | src/unique/core/batch_splitter.py:423-457 | a line put together from characters and literals is divided exactly after the semicolons where no more parentheses have been opened than closed |
| MysqlSplit.DirectiveIff | src/unique/core/batch_splitter.py:880 | a stripped line is a DELIMITER line if and only if it is that word, white space and a text without white space |
| MysqlSplit.JoinEnds | src/unique/core/batch_splitter.py:938-951 | a batch whose last line ends with the delimiter ends with it itself, so shedding it is safe |
| PageSplit.FindHeads | scripts/migrate_rationale_split.py:366-387 | the line loop with its fence state finds the headings of the recursive definition |
| PageSplit.ParseBlocks | scripts/migrate_rationale_split.py:366-392 | blocks run from heading to heading |
| PageSplit.BlocksAreGood | scripts/migrate_rationale_split.py:366-392 | each block starts with its own heading line, and together the blocks are the lines from the first heading on |
| PageSplit.BlocksAreTight | scripts/migrate_rationale_split.py:366-392 | no block holds a second heading, and the fences it opens are closed before the next block |
| PageSplit.PagePrintParse | scripts/migrate_rationale_split.py:366-392 | a page put together from headings, lines of text and fenced passages is parsed into just these; hashes in a fence are no heading, and a fence is closed only by its own mark |
| PageSplit.SameBodies | scripts/migrate_rationale_split.py:587-615 | a page that comes back has the text of its intro partial under every title |
| PageSplit.SectionHasChildren | scripts/migrate_rationale_split.py:395-402 | the search for a level-3 block before the next level-2 block |
| PageSplit.BuildPlan | scripts/migrate_rationale_split.py:496-553 | the plan holds the last title's body and a file for every block that is neither title nor blank scaffold, or fails on a missing table entry |
| PageSplit.PlanIs | scripts/migrate_rationale_split.py:496-553 | the plan lists the sections with text or without articles and the articles, in page order, numbered from 1, each with its title, heading, body, kind, type (an article's is its section's title) and direction; it fails if and only if one of them lacks its slug or type |
| PageSplit.WritePages | scripts/migrate_rationale_split.py:651-659 | fails exactly on a repeated path; otherwise every emitted file holds its page text |
| PageSplit.MetaReadBack | scripts/migrate_rationale_split.py:567-574 | the metadata line of a page, read by the expression of the index generator, gives back topic, type, direction, kind and order |
| PageSplit.ExtractBody | scripts/migrate_rationale_split.py:577-584 | the lines after the first line equal to the title line |
| PageSplit.BodyComesBack | scripts/migrate_rationale_split.py:561-584 | printing a page and extracting its body gives the body back, whatever the body holds |
| PageSplit.GroupByHeading | scripts/migrate_rationale_split.py:587-594 | the loop that fills the queues computes the recursive grouping |
| PageSplit.GroupedIsQueued | scripts/migrate_rationale_split.py:587-594 | each heading's queue holds exactly its emitted files, in order |
| PageSplit.Reconstruct | scripts/migrate_rationale_split.py:587-615 | the loop that pops the queues computes the specified page, or fails where the source raises |
| PageSplit.RebuildIs | scripts/migrate_rationale_split.py:587-615 | duplicate headings included, each block gets its own body back and nothing fails |
| PageSplit.RoundTripIff | scripts/migrate_rationale_split.py:587-665 | reconstruction never fails, and is the identity if and only if the page starts with a heading and its titles have text under them and the same text |
| PageSplit.OpenPageComesBack | scripts/migrate_rationale_split.py:587-665 | a page with three titles, the last of which leaves a fence open, that comes back although its titles differ: the one case outside the equivalence |
| PageSplit.SplitPage | scripts/migrate_rationale_split.py:638-665 | how a run ends: missing entry, duplicate slug exactly when two paths agree, abort exactly on an unfaithful page, or the files |
| Scrub.Scrub | src/unique/core/output_gate.py:227-267 | the scan computes the skeleton of the text's tokens |
| Scrub.LiteralClose | src/unique/core/output_gate.py:249-258 | the literal loop stops at the first quote that is not doubled, or at the end |
| Scrub.PrintLex | src/unique/core/output_gate.py:227-267 | every text is the print of its tokens, and they are unambiguous |
| Scrub.LexPrint | src/unique/core/output_gate.py:227-267 | an unambiguous token list is the only reading of its print |
| Scrub.ScrubPrint | src/unique/core/output_gate.py:227-267 | scrubbing the print of an unambiguous list gives its skeleton |
| Scrub.FindLeftoverTokens | src/unique/core/output_gate.py:270-277 | the labels of the patterns found in the skeleton, in table order |
| Scrub.LabelsAre | src/unique/core/output_gate.py:273-277 | the labels are exactly the tags of the patterns found, in table order |
| Scrub.LeftoversSeeOnlyCode | src/unique/core/output_gate.py:270-277 | leftovers do not depend on comment text, nor on literals beyond their emptiness |
| Scrub.NewlinesKeptIff | src/unique/core/output_gate.py:227-233 | exactly the newlines inside literals are lost; all are kept if and only if no literal spans lines |
| Scrub.UnchangedIff | src/unique/core/output_gate.py:227-267 | a text is left as it is if and only if it has no comment and only `''` and `'x'` as literals |
| Scrub.ScrubTwiceIff | src/unique/core/output_gate.py:227-267 | scrubbing is idempotent on a text if and only if dropping its comments brings no comment opener and no two literals together |
| Scrub.ScrubTwiceDiffers | src/unique/core/output_gate.py:227-267 | two texts on which it is not |
| DiffLines.IterAddedLines | scripts/private_leak_check.py:615-647 | the generator's yields, in order, are those of the line-by-line run |
| DiffLines.SplitUnlines | scripts/private_leak_check.py:624-624 | the text of any lines without newlines is read as the pieces of each line, several where a line holds boundaries |
| DiffLines.HeaderReadBack | scripts/private_leak_check.py:65-66 | the hunk pattern reads the start line out of every printed hunk header |
| DiffLines.NumberedIsNew | scripts/private_leak_check.py:639-647 | within a hunk the new file's line at an expected number is the added text |
| DiffLines.NumberedContents | scripts/private_leak_check.py:639-647 | the expected contents are the added lines, each once and in order |
| DiffLines.NumbersRise | scripts/private_leak_check.py:639-647 | expected numbers rise, so no line is named twice |
| DiffLines.ExpectedIsNewFile | scripts/private_leak_check.py:615-647 | over a whole file every expected yield is a line of the new version at its number |
| DiffLines.SteadyWhole | scripts/private_leak_check.py:639-647 | over lines without fragments the tracker is steady if and only if no added line follows a no-newline marker |
| DiffLines.AddedMustBeWhole | scripts/private_leak_check.py:615-647 | on every printed diff: if the yields are the expected ones, no added line holds a line boundary or reads as a file header |
| DiffLines.ShownIff | scripts/private_leak_check.py:615-647 | of added lines that hold boundaries the first pieces come out, under the right numbers if and only if the tracker is steady |
| DiffLines.FragmentHarmless | scripts/private_leak_check.py:624-647 | one fragment leaves the number right exactly when it starts with `-` or is a hunk header with that very number |
| DiffLines.TracksIff | scripts/private_leak_check.py:615-647 | on every printed diff in which not both kinds of fragments meet: the yields are exactly the expected ones if and only if no added line holds a boundary or reads as a file header, no fragment reads as an added line, and neither a marker nor a fragment has moved the number before an added line |
| DiffLines.CrlfTracks | scripts/private_leak_check.py:615-647 | in diffs of CRLF files the numbers are right and the contents lose just the carriage return, under the condition that LF files have |
| DiffLines.PlusBreaks | scripts/private_leak_check.py:624-647 | a fragment that starts with `+` always spoils the yields, when no fragment leaves the hunk |
| DiffLines.FormFeedInAdded | scripts/private_leak_check.py:624-624 | a printed diff with a form feed in an added line, on which the yields are wrong |
| DiffLines.FormFeedInContext | scripts/private_leak_check.py:624-624 | and one with a form feed in a context line, which moves the number of the added line after it |
| DiffLines.FragmentsCancel | scripts/private_leak_check.py:624-647 | a printed diff with both kinds of fragments whose yields are right although a line was lost |

## Left out

- Letters, digits and case folding are ASCII; `str.isspace` and `str.splitlines` have their whole sets of characters.
- Regular expressions are predicates written out for the lines they are used on; the routine, BEGIN, CASE and END words of the MySQL splitter are parameters, with only "END CASE contains CASE" asked of them.
- Concat: where the source compares rendered SQL the model compares trees, and the registry of string variables is a parameter.
- Merge: names are resolved to target or source, and the rendering of an expression is taken to be injective; parsing, the emitted text and its comment are not modelled.
- Merge.UpsertIsMerge: no assignment of a column of the unique key (`WellFormed`); where there is one, `MovingIff` gives the condition for an ON clause that matches by the inserted key, with keys checked at the end of a MERGE and at once in an upsert.
- Merge.FaithfulIff: likewise no assignment of a key column; ON may be any condition. An ON clause that asks for more than the key, together with such an assignment, is not covered by `MovingIff`.
- Merge.CanonicalIff: ON is the comparison of every key column with a source expression; for any other ON the condition on the text is proved sufficient (`CanonicalIsFaithful`) and the exact condition ranges over rows (`FaithfulIff`).
- RowCaps.EmitMeans: covers AND, OR and NOT over opaque atoms, with the ROWNUM test in the text; a row-tuple inequality is covered by `TupleIsOr` and `TupleUnderAnd`, and all other binary operators are in `Precedence`.
- Precedence.TargetReadBackIff: the levels are those the engines' manuals list, whereas docs/rationale/strings-collation/bitwise-arithmetic-precedence-parens.md has PostgreSQL and T-SQL take bitwise operators before arithmetic (immaterial, by `EitherFamily`); T-SQL's shifts are taken with its other bitwise operators; Oracle's formulas for bitwise operators other than `&` count as calls on their operands; other unary operators than NOT, and the spellings that rewrite an operator (safe and integer division, null-safe comparison, guarded concatenation, intervals, dates), are not modelled.
- Relations.PivotSameTable: a PIVOT without grouping columns over no rows at all is not covered, nor is an aggregate of `*`; IN values are compared as texts.
- Relations: the native spellings of T-SQL and Oracle and the carriers for sources without visible columns are not modelled.
- Months: the calendar is the proleptic Gregorian one; Oracle's Julian dates before 1582 are not modelled.
- Similarity: floats are reals; the tree diff, the tree weights and the sequence matcher are parameters with contracts, and building the units is not modelled.
- TypeEnv.InferenceSoundIff: for chains with INTERSECT and EXCEPT there is a sufficient half (`ShapeFits`, `InferenceSound`) and a necessary one for UNION arms at the end (`TailRefutes`); in between, which rows remain can make any type right: an EXCEPT of a query with itself is empty. `*` columns and CTEs that refer to themselves are not modelled.
- MysqlSplit.OffsetIs: the line is that of a batch's raw text, with the blank lines stripped from its front.
- Oracle splitting, batch classification, dialect detection and the regex tables of leftovers and divergences.
- PageSplit.RoundTripIff: a page with three or more titles whose last one ends the page and leaves a fence open is outside the equivalence, as it may come back by coincidence (`OpenPageComesBack`); link rewriting, file writing and the derivation of slugs and directions are parameters or left out.
- PageSplit.MetaReadBack: the topic has no white space, type and direction hold no quotation mark; the order is read as its digits.
- DiffLines.TracksIff: diffs that mix fragments read as added lines with fragments that leave the hunk are outside it, as the two can cancel out (`FragmentsCancel`), and so are diffs where only deleted files have fragments that start with `+`. File names and extended header lines hold no line boundaries.
- The unordered choice of rows is any choice the engine's scan order gives; NULL ordering and collation are the engine's.
