/** How `Database` (index.ts) turns a stored-procedure call into SQL text and
    how it reads the procedure's OUT parameters back.

    `callProcedure` sends `CALL p(?,?,…)` with one `?` per bound value.
    `executeWithOutParams` declares `@out0 … @out{m-1}` as session variables:
    it first runs `SET @out0 = NULL; SET @out1 = NULL; …`, then
    `CALL p(?, ?, …, @out0, @out1, …)`, then `SELECT @out0, @out1, …`, and
    copies column `@out{i}` of the first row into the key `out{i}` of the
    record it returns. The connection, the transaction and the database are
    outside the model: what the database answers is a parameter. */
module Sql {
  import opened Js

  /** A result row: column name to value. */
  type Row = map<string, Value>

  /** Column `name` of `row`; reading a missing column gives `undefined`. */
  function Column(row: Row, name: string): Value {
    if name in row then row[name] else Undefined
  }

  /** The session variable that carries OUT parameter `i`. */
  function OutName(i: nat): string {
    "@out" + NatToString(i)
  }

  /** The key under which OUT parameter `i` is returned. */
  function OutKey(i: nat): string {
    "out" + NatToString(i)
  }

  /** `n` copies of `x`. */
  function Repeat(x: string, n: nat): (r: seq<string>)
    ensures |r| == n
    ensures forall k :: 0 <= k < n ==> r[k] == x
  {
    if n == 0 then [] else Repeat(x, n - 1) + [x]
  }

  /** The session variables `@out0 … @out{m-1}`, in index order. */
  function OutNames(m: nat): (r: seq<string>)
    ensures |r| == m
    ensures forall i :: 0 <= i < m ==> r[i] == OutName(i)
  {
    if m == 0 then [] else OutNames(m - 1) + [OutName(m - 1)]
  }

  /** Every item followed by `sep`: what appending `item + sep` in a loop builds. */
  function Terminated(items: seq<string>, sep: string): string {
    if items == [] then "" else Terminated(items[..|items| - 1], sep) + items[|items| - 1] + sep
  }

  /** `s.substring(0, s.length - 2)`: a negative end is taken as 0. */
  function DropLastTwo(s: string): string {
    if |s| >= 2 then s[..|s| - 2] else ""
  }

  /** The argument list of `executeWithOutParams` for `n` bound values and `m`
      OUT parameters. */
  function Placeholders(n: nat, m: nat): string {
    Join(Repeat("?", n) + OutNames(m), ", ")
  }

  /** The statement that resets the OUT parameters before the call. */
  function SetPrologue(m: nat): string {
    if m == 0 then "" else SetPrologue(m - 1) + "SET " + OutName(m - 1) + " = NULL; "
  }

  /** The column list read back after the call. */
  function SelectList(m: nat): string {
    Join(OutNames(m), ", ")
  }

  /** `CALL ${procedure}(${placeholders})` */
  function CallText(procedure: string, placeholders: string): string {
    "CALL " + procedure + "(" + placeholders + ")"
  }

  /** The query `callProcedure` sends for `n` bound values. */
  function CallProcedureQuery(procedure: string, n: nat): string {
    CallText(procedure, Join(Repeat("?", n), ","))
  }

  /** The record of OUT parameters: key `out{i}` holds column `@out{i}` of `row`. */
  function OutRecord(m: nat, row: Row): map<string, Value> {
    if m == 0 then map[] else OutRecord(m - 1, row)[OutKey(m - 1) := Column(row, OutName(m - 1))]
  }

  /** The TypeError message `outResults[0][paramName]` raises under Bun's
      JavaScriptCore engine when the SELECT returns no row. */
  const NoRowError := "undefined is not an object (evaluating 'outResults[0][paramName]')"

  // ---------------------------------------------------------------------------
  // Building the statements (index.ts:86-98)

  /** Appending `item + sep` once more extends `Terminated` by that item. */
  lemma TerminatedSnoc(items: seq<string>, x: string, sep: string)
    ensures Terminated(items + [x], sep) == Terminated(items, sep) + x + sep
  {
    assert (items + [x])[..|items|] == items;
  }

  /** Dropping the final separator of `Terminated` gives `Join`. */
  lemma {:induction false} TerminatedIsJoinPlusSep(items: seq<string>, sep: string)
    requires items != []
    ensures Terminated(items, sep) == Join(items, sep) + sep
  {
    var n := |items|;
    if n > 1 {
      TerminatedIsJoinPlusSep(items[..n - 1], sep);
    }
  }

  /** The two `for` loops of `executeWithOutParams` and the `substring` after them. */
  method BuildStatements(inCount: nat, outCount: nat)
    returns (placeholders: string, setStatements: string, selectStatement: string)
    ensures placeholders == Placeholders(inCount, outCount)
    ensures setStatements == SetPrologue(outCount)
    ensures selectStatement == SelectList(outCount)
  {
    placeholders, setStatements, selectStatement := "", "", "";
    for i := 0 to inCount
      invariant placeholders == Terminated(Repeat("?", i), ", ")
    {
      TerminatedSnoc(Repeat("?", i), "?", ", ");
      placeholders := placeholders + "?, ";
    }
    assert Repeat("?", inCount) + OutNames(0) == Repeat("?", inCount);
    for i := 0 to outCount
      invariant placeholders == Terminated(Repeat("?", inCount) + OutNames(i), ", ")
      invariant setStatements == SetPrologue(i)
      invariant selectStatement == Join(OutNames(i), ", ")
    {
      var paramName := "@out" + NatToString(i);
      var items := Repeat("?", inCount) + OutNames(i);
      assert Repeat("?", inCount) + OutNames(i + 1) == items + [paramName];
      TerminatedSnoc(items, paramName, ", ");
      placeholders := placeholders + paramName + ", ";
      setStatements := setStatements + "SET " + paramName + " = NULL; ";
      assert OutNames(i + 1)[..i] == OutNames(i);
      selectStatement := selectStatement + (if i > 0 then ", " else "") + paramName;
    }
    var items := Repeat("?", inCount) + OutNames(outCount);
    if items != [] {
      TerminatedIsJoinPlusSep(items, ", ");
      assert (Join(items, ", ") + ", ")[..|placeholders| - 2] == Join(items, ", ");
    }
    placeholders := DropLastTwo(placeholders);
  }

  /** The third `for` loop of `executeWithOutParams` (index.ts:107-113): the
      record is empty without OUT parameters, and otherwise needs a first row. */
  method CollectOutParams(outCount: nat, selectRows: seq<Row>)
    returns (outParams: Result<map<string, Value>>)
    ensures outCount == 0 ==> outParams == Ok(map[])
    ensures outCount > 0 && selectRows == [] ==> outParams == Err(NoRowError)
    ensures outCount > 0 && selectRows != [] ==> outParams == Ok(OutRecord(outCount, selectRows[0]))
  {
    if outCount == 0 {
      return Ok(map[]);
    }
    if selectRows == [] {
      return Err(NoRowError);
    }
    var record: map<string, Value> := map[];
    for i := 0 to outCount
      invariant record == OutRecord(i, selectRows[0])
    {
      var paramName := "@out" + NatToString(i);
      record := record[OutKey(i) := Column(selectRows[0], paramName)];
    }
    return Ok(record);
  }

  // ---------------------------------------------------------------------------
  // The whole call (index.ts:81-129)

  /** What `executeWithOutParams` returns: the CALL's result rows and the OUT record. */
  datatype OutCall = OutCall(results: seq<Row>, outParams: map<string, Value>)

  /** `executeWithOutParams(procedure, inParams, outParamCount)`. `callReply` is
      what the database answers to the CALL (its rows, or the error it raises)
      and `selectRows` what it answers to the SELECT. Returns the statements
      sent on the connection, in order, and the outcome. */
  method ExecuteWithOutParams(procedure: string, inParams: seq<Value>, outParamCount: nat,
                              callReply: Result<seq<Row>>, selectRows: seq<Row>)
    returns (sent: seq<string>, outcome: Result<OutCall>)
    ensures sent == (if outParamCount > 0 then [SetPrologue(outParamCount)] else [])
                    + [CallText(procedure, Placeholders(|inParams|, outParamCount))]
                    + (if callReply.Ok? && outParamCount > 0 then ["SELECT " + SelectList(outParamCount)] else [])
    ensures callReply.Err? ==> outcome == Err(callReply.message)
    ensures callReply.Ok? && outParamCount > 0 && selectRows == [] ==> outcome == Err(NoRowError)
    ensures callReply.Ok? && outParamCount == 0 ==> outcome == Ok(OutCall(callReply.value, map[]))
    ensures callReply.Ok? && outParamCount > 0 && selectRows != [] ==>
              outcome == Ok(OutCall(callReply.value, OutRecord(outParamCount, selectRows[0])))
  {
    var placeholders, setStatements, selectStatement := BuildStatements(|inParams|, outParamCount);
    sent := [];
    if outParamCount > 0 {
      sent := sent + [setStatements];
    }
    sent := sent + [CallText(procedure, placeholders)];
    if callReply.Err? {
      return sent, Err(callReply.message);
    }
    var outParams: Result<map<string, Value>> := Ok(map[]);
    if outParamCount > 0 && selectStatement != "" {
      sent := sent + ["SELECT " + selectStatement];
      outParams := CollectOutParams(outParamCount, selectRows);
    }
    if outParams.Err? {
      return sent, Err(outParams.message);
    }
    SelectListEmptyIff(outParamCount);
    return sent, Ok(OutCall(callReply.value, outParams.value));
  }

  // ---------------------------------------------------------------------------
  // What the statements are

  /** Number of occurrences of `c` in `s`. */
  function Count(s: string, c: char): nat {
    if s == [] then 0 else Count(s[..|s| - 1], c) + (if s[|s| - 1] == c then 1 else 0)
  }

  lemma {:induction false} CountAppend(s: string, t: string, c: char)
    ensures Count(s + t, c) == Count(s, c) + Count(t, c)
    decreases |t|
  {
    if t == [] {
      assert s + t == s;
    } else {
      CountAppend(s, t[..|t| - 1], c);
      assert (s + t)[..|s + t| - 1] == s + t[..|t| - 1];
      assert (s + t)[|s + t| - 1] == t[|t| - 1];
    }
  }

  /** Occurrences of `c` in a join: those of the items plus those of the separators. */
  function CountAll(items: seq<string>, c: char): nat {
    if items == [] then 0 else CountAll(items[..|items| - 1], c) + Count(items[|items| - 1], c)
  }

  lemma {:induction false} CountJoin(items: seq<string>, sep: string, c: char)
    requires Count(sep, c) == 0
    ensures Count(Join(items, sep), c) == CountAll(items, c)
  {
    var n := |items|;
    if n == 1 {
      assert items[..0] == [];
    } else if n > 1 {
      CountJoin(items[..n - 1], sep, c);
      CountAppend(Join(items[..n - 1], sep), sep, c);
      CountAppend(Join(items[..n - 1], sep) + sep, items[n - 1], c);
    }
  }

  lemma {:induction false} CountAllAppend(a: seq<string>, b: seq<string>, c: char)
    ensures CountAll(a + b, c) == CountAll(a, c) + CountAll(b, c)
    decreases |b|
  {
    if b == [] {
      assert a + b == a;
    } else {
      CountAllAppend(a, b[..|b| - 1], c);
      assert (a + b)[..|a + b| - 1] == a + b[..|b| - 1];
      assert (a + b)[|a + b| - 1] == b[|b| - 1];
    }
  }

  lemma {:induction false} CountAllRepeat(x: string, n: nat, c: char)
    ensures Count(x, c) == 0 ==> CountAll(Repeat(x, n), c) == 0
    ensures Count(x, c) == 1 ==> CountAll(Repeat(x, n), c) == n
  {
    if n > 0 {
      CountAllRepeat(x, n - 1, c);
      assert Repeat(x, n)[..n - 1] == Repeat(x, n - 1);
    }
  }

  /** An OUT parameter's name holds one `@` and no `?`. */
  lemma OutNameMarks(i: nat)
    ensures Count(OutName(i), '@') == 1 && Count(OutName(i), '?') == 0
  {
    var d := NatToString(i);
    assert Count("@out", '@') == 1 && Count("@out", '?') == 0 by {
      assert "@out"[..3] == "@ou" && "@ou"[..2] == "@o" && "@o"[..1] == "@" && "@"[..0] == "";
    }
    CountAppend("@out", d, '@');
    CountAppend("@out", d, '?');
    DigitsHaveNoMarks(d);
  }

  lemma {:induction false} DigitsHaveNoMarks(d: string)
    requires AllDigits(d)
    ensures Count(d, '@') == 0 && Count(d, '?') == 0
  {
    if d != [] {
      DigitsHaveNoMarks(d[..|d| - 1]);
    }
  }

  lemma {:induction false} CountAllOutNames(m: nat)
    ensures CountAll(OutNames(m), '@') == m && CountAll(OutNames(m), '?') == 0
  {
    if m > 0 {
      CountAllOutNames(m - 1);
      OutNameMarks(m - 1);
      assert OutNames(m)[..m - 1] == OutNames(m - 1);
    }
  }

  /** The separators hold neither mark. */
  lemma SeparatorsUnmarked()
    ensures Count(", ", '?') == 0 && Count(", ", '@') == 0
    ensures Count(",", '?') == 0 && Count(",", '@') == 0
  {
    assert ", "[..1] == ",";
    assert ","[..0] == "";
  }

  /** The CALL argument list has one `?` per bound value, so every bound value
      has its own slot. */
  lemma PlaceholderQuestionMarks(n: nat, m: nat)
    ensures Count(Placeholders(n, m), '?') == n
  {
    var items := Repeat("?", n) + OutNames(m);
    assert Count("?", '?') == 1 by {
      assert "?"[..0] == "";
    }
    SeparatorsUnmarked();
    CountJoin(items, ", ", '?');
    CountAllAppend(Repeat("?", n), OutNames(m), '?');
    CountAllRepeat("?", n, '?');
    CountAllOutNames(m);
  }

  /** The CALL argument list has one `@` per OUT parameter. */
  lemma PlaceholderOutMarks(n: nat, m: nat)
    ensures Count(Placeholders(n, m), '@') == m
  {
    var items := Repeat("?", n) + OutNames(m);
    assert Count("?", '@') == 0 by {
      assert "?"[..0] == "";
    }
    SeparatorsUnmarked();
    CountJoin(items, ", ", '@');
    CountAllAppend(Repeat("?", n), OutNames(m), '@');
    CountAllRepeat("?", n, '@');
    CountAllOutNames(m);
  }

  /** The argument list is empty exactly when there is nothing to bind, giving
      `CALL p()`; otherwise it ends on its last slot, never on a separator. */
  lemma {:induction false} PlaceholdersEnds(n: nat, m: nat)
    ensures Placeholders(n, m) == "" <==> n == 0 && m == 0
    ensures n + m > 0 ==> var p := Placeholders(n, m);
      p[|p| - 1] == (if m == 0 then '?' else NatToString(m - 1)[|NatToString(m - 1)| - 1])
  {
    var items := Repeat("?", n) + OutNames(m);
    var k := |items|;
    if k > 0 {
      JoinEndsWithLast(items, ", ");
      if m == 0 {
        assert items[k - 1] == "?";
      } else {
        assert items[k - 1] == OutName(m - 1);
      }
    }
  }

  /** A join of non-empty items ends with the last item. */
  lemma JoinEndsWithLast(items: seq<string>, sep: string)
    requires items != [] && items[|items| - 1] != ""
    ensures var j := Join(items, sep); j != "" && j[|j| - 1] == items[|items| - 1][|items[|items| - 1]| - 1]
  {
  }

  /** The clauses `SET @out{i} = NULL;`, in index order. */
  function SetClauses(m: nat): (r: seq<string>)
    ensures |r| == m
    ensures forall i :: 0 <= i < m ==> r[i] == "SET " + OutName(i) + " = NULL;"
  {
    if m == 0 then [] else SetClauses(m - 1) + ["SET " + OutName(m - 1) + " = NULL;"]
  }

  /** The SET prologue holds one `SET … = NULL;` clause per OUT parameter, in
      index order, each followed by a space; it is empty, and so not sent,
      exactly when there are none. */
  lemma {:induction false} SetPrologueClauses(m: nat)
    ensures SetPrologue(m) == Terminated(SetClauses(m), " ")
    ensures SetPrologue(m) == "" <==> m == 0
  {
    if m > 0 {
      SetPrologueClauses(m - 1);
      var clause := "SET " + OutName(m - 1) + " = NULL;";
      TerminatedSnoc(SetClauses(m - 1), clause, " ");
      assert " = NULL; " == " = NULL;" + " ";
      assert SetPrologue(m) == SetPrologue(m - 1) + clause + " ";
    }
  }

  /** The SELECT list is empty exactly when there are no OUT parameters, so the
      `&& selectStatement` test of `executeWithOutParams` never changes its
      outcome. */
  lemma SelectListEmptyIff(m: nat)
    ensures SelectList(m) == "" <==> m == 0
  {
    if m > 0 {
      JoinEndsWithLast(OutNames(m), ", ");
    }
  }

  /** The SELECT list names `@out0 … @out{m-1}`, one `@` each. */
  lemma SelectListMarks(m: nat)
    ensures Count(SelectList(m), '@') == m
  {
    assert Count(", ", '@') == 0 by {
      assert ", "[..1] == ",";
      assert ","[..0] == "";
    }
    CountJoin(OutNames(m), ", ", '@');
    CountAllOutNames(m);
  }

  /** Distinct OUT parameters have distinct names and keys. */
  lemma OutKeysDistinct(i: nat, j: nat)
    requires i != j
    ensures OutName(i) != OutName(j) && OutKey(i) != OutKey(j)
  {
    if OutKey(i) == OutKey(j) {
      assert NatToString(i) == OutKey(i)[3..];
      assert NatToString(j) == OutKey(j)[3..];
      NatToStringInjective(i, j);
      assert false;
    }
    assert OutName(i)[1..] == OutKey(i) && OutName(j)[1..] == OutKey(j);
  }

  /** The OUT record has exactly the keys `out0 … out{m-1}`, each copied from
      column `@out{i}` of the row; it has `m` entries and is `{}` when `m = 0`. */
  lemma OutRecordExact(m: nat, row: Row)
    ensures OutRecord(m, row).Keys == set i | 0 <= i < m :: OutKey(i)
    ensures forall i :: 0 <= i < m ==> OutRecord(m, row)[OutKey(i)] == Column(row, OutName(i))
    ensures |OutRecord(m, row)| == m
  {
    OutRecordKeys(m, row);
    OutRecordSize(m, row);
    OutRecordValues(m, row);
  }

  lemma {:induction false} OutRecordKeys(m: nat, row: Row)
    ensures OutRecord(m, row).Keys == set i | 0 <= i < m :: OutKey(i)
  {
    if m > 0 {
      OutRecordKeys(m - 1, row);
      OutKeysStep(m);
    }
  }

  lemma {:induction false} OutRecordSize(m: nat, row: Row)
    ensures |OutRecord(m, row)| == m
  {
    if m > 0 {
      OutRecordSize(m - 1, row);
      OutRecordKeys(m - 1, row);
      OutKeyFresh(m - 1);
      assert OutKey(m - 1) !in OutRecord(m - 1, row);
    }
  }

  lemma {:induction false} OutRecordValues(m: nat, row: Row)
    ensures forall i :: 0 <= i < m ==> OutKey(i) in OutRecord(m, row) && OutRecord(m, row)[OutKey(i)] == Column(row, OutName(i))
  {
    if m > 0 {
      OutRecordValues(m - 1, row);
      OutKeyFresh(m - 1);
    }
  }

  /** `out{m}` is none of the keys `out0 … out{m-1}`. */
  lemma OutKeyFresh(m: nat)
    ensures forall i :: 0 <= i < m ==> OutKey(i) != OutKey(m)
  {
    forall i | 0 <= i < m ensures OutKey(i) != OutKey(m) {
      OutKeysDistinct(i, m);
    }
  }

  /** The keys of the first `m` OUT parameters are those of the first `m - 1` and `out{m-1}`. */
  lemma OutKeysStep(m: nat)
    requires m > 0
    ensures (set i | 0 <= i < m :: OutKey(i)) == (set i | 0 <= i < m - 1 :: OutKey(i)) + {OutKey(m - 1)}
  {
  }

  /** `callProcedure`'s argument list holds one question mark per bound value;
      it is empty without parameters, giving `CALL p()`, and otherwise
      splitting it at the commas gives back exactly `n` single `?` pieces. */
  lemma CallProcedurePlaceholders(procedure: string, n: nat)
    ensures Count(Join(Repeat("?", n), ","), '?') == n
    ensures n == 0 ==> CallProcedureQuery(procedure, n) == "CALL " + procedure + "()"
    ensures n > 0 ==> Split(Join(Repeat("?", n), ","), ',') == Repeat("?", n)
  {
    QuestionMarkCount(n);
    if n > 0 {
      QuestionMarksSplit(n);
    } else {
      assert Repeat("?", n) == [];
    }
  }

  lemma QuestionMarkCount(n: nat)
    ensures Count(Join(Repeat("?", n), ","), '?') == n
  {
    assert Count("?", '?') == 1 by {
      assert "?"[..0] == "";
    }
    SeparatorsUnmarked();
    CountJoin(Repeat("?", n), ",", '?');
    CountAllRepeat("?", n, '?');
  }

  lemma QuestionMarksSplit(n: nat)
    requires n > 0
    ensures Split(Join(Repeat("?", n), ","), ',') == Repeat("?", n)
  {
    JoinSplit(Repeat("?", n), ',');
  }
}
