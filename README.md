# ORDER BY sorter layout and collation selection

This project models how the SELECT translator prepares its ORDER BY sorter:

- **Collation selection.** `init_order_by` picks one collating sequence per ORDER BY term. An explicit `COLLATE name` uses the named sequence. A bare column uses the collation its table declares. Anything else uses BINARY. It then opens a sorter with one key column per term and the terms' directions.
- **Deduplication.** `order_by_deduplicate_result_columns` finds the SELECT result columns that are equivalent to a sort key. It returns pairs (result-column index, index of the first equivalent sort key), or `None` when there are none.
- **Insert side.** `order_by_sorter_insert` lays out one sorter record: the sort keys in ORDER BY order, then the result columns that were not skipped, in SELECT order. Alongside, it fills the index vector `result_column_indexes_in_orderby_sorter`, which says for every result column which sorter column holds it. `sorter_insert` then packs the registers into a record and inserts it.
- **Read-back side.** `emit_order_by` opens a pseudo cursor as wide as a record. It reads each result column back from the sorter column the index vector names, so rows come out in SELECT order.

## Files and abstractions

The project has five modules:

- `Wrappers`: `Option` and `Result`.
- `Ast`: the syntax tree the code inspects.
- `Plan`: the plan and schema facts it reads.
- `Vdbe`: the emitted instructions.
- `OrderBy`: the model proper.

Calls whose code is not part of this model are abstracted:

- `exprs_are_equivalent` is a parameter of type `OrderBy.Equivalence`. Nothing is assumed about it, not even symmetry.
- `CollationSeq::new` is a parameter of type `OrderBy.CollationLookup`, returning either a sequence or an error.
- `translate_expr` is the single instruction `Vdbe.TranslateExpr(expr, reg)`, meaning "evaluate `expr` into register `reg`".
- `emit_deduplication_insns` is the single instruction `Vdbe.Deduplicate(numRegs, startReg)`.
- Cursors and registers handed out by the program builder are method parameters.
- `emit_insn` becomes the method's returned instruction sequence.

`TranslateCtx` is a class holding only the fields this code reads and writes. The methods update them in place. `Vec::insert(i, x)` is `OrderBy.VecInsert`, that is `v[..i] + [x] + v[i..]`.

## Model

| member | source | states |
|---|---|---|
| OrderBy.TermCollation | core/translate/order_by.rs:52-64 | One term's collation. `COLLATE name` fails exactly when the lookup of `name` fails, with its error, and otherwise gives the looked-up sequence. A bare column fails exactly when its index is past the table's columns, with the parse error "column index out of bounds", and otherwise gives the column's declared collation. Anything else gives BINARY. |
| OrderBy.Directions | core/translate/order_by.rs:69 | One direction per term, in clause order: entry k is term k's direction. |
| OrderBy.Collations | core/translate/order_by.rs:50-65 | The selection succeeds exactly when every term's collation can be chosen. It then gives one entry per term, in clause order, each that term's own collation. |
| OrderBy.CollationsFirstError | core/translate/order_by.rs:50-65 | A failed selection reports the error of the first term that fails, and every earlier term succeeds. This is `collect` into a `Result` stopping at the first error. |
| OrderBy.CollationsFollowRule | core/translate/order_by.rs:43-63 | Each chosen entry follows the rule. `COLLATE name` gives the looked-up sequence. A bare column gives its declared collation, which may be none, and its index is in range. Anything else gives BINARY. |
| OrderBy.InitOrderBy | core/translate/order_by.rs:31-73 | The context's `meta_sort` is set to the sorter cursor and data register, on the error path too. The result is Ok exactly when every term's collation resolves, and an Err carries the first failing term's error. On success the instruction is a `SorterOpen` with that cursor, `columns` equal to the number of terms, `order` equal to the terms' directions, and collations following the rule. |
| OrderBy.FirstEquivalentFromIsFirst | core/translate/order_by.rs:266-269 | The search from a position returns the first equivalent sort key at or after it. It fails exactly when there is no such key. |
| OrderBy.FirstEquivalent | core/translate/order_by.rs:266-269 | `find` over the sort keys returns an index j of a key equivalent to the expression, and no earlier key is equivalent. It returns `None` exactly when no key is equivalent. |
| OrderBy.RemapPairsSound | core/translate/order_by.rs:265-276 | Every collected pair (i, j) has i among the result columns seen and j the first sort key equivalent to result column i. The pairs strictly increase in i, so each result column has at most one pair. |
| OrderBy.Deduplicated | core/translate/order_by.rs:260-280 | The deduplication never returns `Some` of an empty list. A returned list is no longer than the result-column list. |
| OrderBy.DedupStep | core/translate/order_by.rs:265-277 | One turn of the deduplication loop. A result column with no equivalent sort key leaves the result unchanged. One whose first equivalent key is j adds (i, j), pushing onto an existing list or starting a new one. |
| OrderBy.DeduplicateResultColumns | core/translate/order_by.rs:260-280 | The loop holds `None` until the first match, then pushes each further pair. Its result is exactly the collected pairs, or `None` when there are none. |
| OrderBy.DeduplicatedNoneIff | core/translate/order_by.rs:264-279 | The result is `None` exactly when no result column is equivalent to any sort key. |
| OrderBy.SkipLen | core/translate/order_by.rs:168-171 | The number of skipped result columns: 0 without a remapping, otherwise the remapping's length. |
| OrderBy.SorterColumnCount | core/translate/order_by.rs:173-175 | The sorter width plus the skipped count equals `order_by_len + result_columns.len()`. The subtraction is only taken when it cannot underflow. On `usize` an underflow panics when overflow checks are on and wraps otherwise; the model excludes the case. |
| OrderBy.SkipLookup | core/translate/order_by.rs:191-194 | Without a remapping no result column is skipped. |
| OrderBy.SkipLookupSpec | core/translate/order_by.rs:191-194 | Result column i is read from a sort key exactly when there is a remapping and one of its pairs names i. The key it is read from comes from such a pair. |
| OrderBy.FindSkipped | core/translate/order_by.rs:192 | The lookup finds nothing exactly when no pair names result column i. Otherwise the pair it finds is in the list. |
| OrderBy.FindSkippedAppend | core/translate/order_by.rs:192 | The lookup takes the first matching pair: a match in the front part of a list wins over one behind it. |
| OrderBy.FindSkippedRemapPairs | core/translate/order_by.rs:191-197 | Looking result column i up among the pairs collected from the first n columns gives i's first equivalent sort key (for i < n). |
| OrderBy.SkipLookupFindsFirstEquivalent | core/translate/order_by.rs:167-197 | On the deduplication's result, the insert side skips result column i exactly when i is equivalent to a sort key. It then reads i from the first such key: the insert side agrees with the deduplication. |
| OrderBy.StoredPrefix | core/translate/order_by.rs:190-210 | The columns stored from the first m result columns come, unchanged, at the front of those stored from the first n ≥ m. |
| OrderBy.StoredCount | core/translate/order_by.rs:190-210 | Each of the first n result columns is either skipped or stored, never both: stored count plus pair count is n. |
| OrderBy.SorterWidthMatchesRecord | core/translate/order_by.rs:168-175 | The width `order_by_len + result_columns.len() - skipped` cannot underflow. It equals the record length, and it equals `order_by_len + translated_result_col_count`, the DISTINCT register count of line 215. |
| OrderBy.ReadBackAgrees | core/translate/order_by.rs:187-210 | The sorter column result column i is read back from lies inside the record. If i has an equivalent sort key, it is the first one j, and the record holds key j there, which is equivalent to column i. Otherwise it lies after the keys and holds result column i itself. |
| OrderBy.SlotIndexesAt | core/translate/order_by.rs:195-207 | Entry i of the index vector built by the loop is result column i's sorter column: its remapped key if skipped, otherwise `order_by_len` plus the number of columns stored before i. |
| OrderBy.IndexVectorInBounds | core/translate/order_by.rs:187-210 | Every entry of the index vector is below the sorter width. |
| OrderBy.NonSkippedSlotsIncrease | core/translate/order_by.rs:206-209 | Stored result columns take strictly increasing, hence distinct, sorter columns, in SELECT order. |
| OrderBy.NonSkippedSlotsCover | core/translate/order_by.rs:206-209 | Every sorter column after the keys, up to the width, holds some stored result column: the stored columns are contiguous. |
| OrderBy.WritesAt | core/translate/order_by.rs:177-186 | Evaluating a list of expressions into consecutive registers evaluates the k-th one into register start + k. |
| OrderBy.WritesAppend | core/translate/order_by.rs:177-210 | Evaluating two lists one after the other equals evaluating their concatenation from the same start register. |
| OrderBy.WritesRecord | core/translate/order_by.rs:177-210 | Writing a record writes the sort keys from `start_reg`, then the stored result columns from `start_reg + order_by_len`. |
| OrderBy.TranslateKeys | core/translate/order_by.rs:177-186 | The key loop evaluates sort key i into register `start_reg + i`, for every key, in order. |
| OrderBy.ResultColumnStep | core/translate/order_by.rs:190-210 | One turn of the result-column loop. A skipped column adds nothing to the record, and inserting its remapped key at position i extends the index vector's front part. A stored column is appended to the record, and its sorter column is inserted at position i. |
| OrderBy.VecInsertShifts | core/translate/order_by.rs:195-207 | `Vec::insert(i, x)` lengthens the vector by one, puts x at position i, keeps the entries before i and shifts the rest one place up. |
| OrderBy.ResultColumnTurn | core/translate/order_by.rs:190-210 | One whole turn of the result-column loop on the loop's own values. A column found among the skipped ones leaves the stored columns alone and inserts its remapped key. Any other column is appended to the stored columns and inserts the next sorter column. |
| OrderBy.TranslateResultColumns | core/translate/order_by.rs:187-210 | The loop's three counters and the index vector advance together. `translated_result_col_count` ends at the number of stored columns. The emitted writes put the stored columns into consecutive registers after the keys. The index vector gains one entry per result column at its front, and its old contents follow unchanged. |
| OrderBy.OrderBySorterInsert | core/translate/order_by.rs:156-232 | The index vector gains, at its front, the sorter column of every result column. The record length equals the width. The emitted code writes the record into consecutive registers from `start_reg`. It adds the DISTINCT check on exactly `width` registers for SELECT DISTINCT, and then a `MakeRecord` of `width` columns and a `SorterInsert`. |
| OrderBy.SorterInsertInsns | core/translate/order_by.rs:236-253 | Exactly two instructions: a `MakeRecord` of `column_count` registers from `start_reg` into `record_reg`, then a `SorterInsert` of that register into the cursor. |
| OrderBy.EmitOrderBy | core/translate/order_by.rs:78-153 | The read-back opens a pseudo cursor of the same width formula over the data register, then sorts and fetches. It reads result column i from the sorter column named by entry i of the index vector into register `reg_result_cols_start + i`, and loops with `SorterNext`. |
| OrderBy.IndexVectorReadsRecord | core/translate/order_by.rs:187-210 | An index vector that starts with the loop's entries names, for every result column, a column inside the record. That column holds the result column's own expression or an equivalent sort key. |
| OrderBy.InsertThenReadBack | core/translate/order_by.rs:78-232 | The insert side followed by the read-back, with the skip list the deduplication computes. The insert code writes exactly that record into consecutive registers from `start_reg`. For SELECT DISTINCT it adds the DISTINCT check on the record's length. It then packs that many registers with `MakeRecord` and inserts them. The pseudo cursor is exactly as wide as the `MakeRecord` count. Result column i is read into `reg_result_cols_start + i` from a column inside the record, which holds its own expression or an equivalent sort key. |
| OrderBy.ExampleReorderedColumns | core/translate/order_by.rs:156-280 | ORDER BY a, b with SELECT b, c, a: the remapping is [(0, 1), (2, 0)], the record is a, b, c, the index vector is [1, 2, 0] and the width is 3. |
| OrderBy.ExampleRepeatedColumn | core/translate/order_by.rs:156-280 | SELECT a, a with ORDER BY a: both columns are read from key 0, the index vector is [0, 0] and the width is 1. |

## Left out

- Program builder mechanics are not modelled: label allocation and resolution, jump targets (`pc_if_empty`, `pc_if_next`), and cursor and register allocation. The allocated numbers are parameters.
- `emit_offset` and `emit_result_row_and_limit`, called from `emit_order_by`, live in code that is not part of this model. Their instructions are not among `EmitOrderBy`'s output.
- OrderBy.OrderBySorterInsert: the errors `translate_expr` can return (the `?` at lines 179-185 and 199-205) are not modelled; each evaluation is assumed to succeed.
- OrderBy.OrderBySorterInsert: takes the index vector as a field of the context rather than a separate `&mut Vec<usize>` argument. The DISTINCT `expect` at line 214 becomes a precondition. So does the `unwrap` of `plan.order_by` at line 163 (`requires plan.orderBy.Some?`).
- OrderBy.Collations: requires every bare-column term to name a referenced table, standing for the `unwrap` at line 55. This over-requires slightly: the source only panics when it reaches that term, and `collect` stops at an earlier error. The same holds for OrderBy.InitOrderBy.
- OrderBy.EmitOrderBy: it reads `result_columns_to_skip_in_orderby_sorter` from the context, which is set by code that is not part of this model. The agreement lemmas are stated for the deduplication's own result. The model does not prove the two equal.
- OrderBy.EmitOrderBy: its five preconditions stand for panics in the source. `plan.orderBy.Some?` is the `unwrap` at line 83. `ctx.metaSort.Some?` is the `unwrap` at line 102. `ctx.regResultColsStart.Some?` is the `unwrap` at line 127. The width bound stands for the `usize` subtraction at lines 89-94. Below zero it panics when overflow checks are on and wraps to a huge width otherwise; the model excludes the case. The index-vector length stands for the index at line 132, which would panic when out of range.
- OrderBy.EmitOrderBy: drops the `?` after `emit_result_row_and_limit` (lines 137-143). When that call fails, the source returns its error and never emits `SorterNext`. The model always succeeds and always ends with `SorterNext`.
- The behaviour of `exprs_are_equivalent` and `CollationSeq::new`: both are parameters. The collating sequences are named `Binary`, `NoCase` and `Rtrim`; core/translate/collate.rs is not part of this model.
- The sort itself is done by the VDBE sorter at run time. The model makes no claim that output is sorted.
- GROUP BY, aggregates, HAVING and numeric affinity are not part of this file.
