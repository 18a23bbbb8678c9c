/**
 * The bytecode instructions the ORDER BY translation emits. Instructions
 * produced by code outside this model are abstracted to a single
 * instruction each: `TranslateExpr(expr, reg)` stands for whatever
 * `translate_expr` emits to evaluate `expr` into register `reg`, and
 * `Deduplicate(numRegs, startReg)` for the SELECT DISTINCT check on
 * `numRegs` registers starting at `startReg`.
 */
module Vdbe {
  import opened Wrappers
  import opened Ast

  datatype Insn =
    | SorterOpen(cursorId: nat, columns: nat, order: seq<SortOrder>, collations: seq<Option<CollationSeq>>)
    | TranslateExpr(expr: Expr, targetReg: nat)
    | Deduplicate(numRegs: nat, startReg: nat)
    | MakeRecord(startReg: nat, count: nat, destReg: nat)
    | SorterInsert(cursorId: nat, recordReg: nat)
    | OpenPseudo(cursorId: nat, contentReg: nat, numFields: nat)
    | SorterSort(cursorId: nat)
    | SorterData(cursorId: nat, destReg: nat, pseudoCursor: nat)
    | Column(cursorId: nat, column: nat, destReg: nat)
    | SorterNext(cursorId: nat)
}
