/**
 The audit search (internal/audit/repository/audit_query_repository_impl.go):
 the built WHERE text with its numbered arguments selects what the filter
 describes, and the pages of one order list every match once.
 */
module AuditQuery {
  import opened Common
  import opened Decimal
  import opened SqlText
  import Text

  datatype Filter = Filter(account: string, event: string, start: Option<int>, end: Option<int>, page: int, pageSize: int)

  datatype Record = Record(id: int, account: Option<string>, action: string, created: int)

  datatype Arg = TextArg(s: string) | TimeArg(t: int) | IntArg(n: int)

  const MAX_PAGE_SIZE := 100

  // ----- what the filter means -----

  predicate Matches(f: Filter, r: Record) {
    && (f.account != "" ==> r.account == Some(f.account))
    && (f.event != "" ==> r.action == f.event)
    && (f.start.Some? ==> r.created >= f.start.value)
    && (f.end.Some? ==> r.created <= f.end.value)
  }

  // ----- the fragment of SQL the builder writes -----

  datatype Cond = Cond(column: string, op: string, param: nat)

  /** A comparison; None is SQL's NULL, or an argument of another type. */
  function Compare(column: string, op: string, arg: Arg, r: Record): Option<bool> {
    match arg
    case TextArg(s) =>
      if op != "=" then None
      else if column == "account_id" then (if r.account.None? then None else Some(r.account.value == s))
      else if column == "action" then Some(r.action == s)
      else None
    case TimeArg(t) =>
      if column != "created_at" then None
      else if op == ">=" then Some(r.created >= t)
      else if op == "<=" then Some(r.created <= t)
      else None
    case IntArg(_) => None
  }

  function EvalCond(c: Cond, args: seq<Arg>, r: Record): Option<bool> {
    if 1 <= c.param <= |args| then Compare(c.column, c.op, args[c.param - 1], r) else None
  }

  /** A row is selected when every conjunct is true, neither false nor NULL. */
  predicate Selected(conds: seq<Cond>, args: seq<Arg>, r: Record) {
    forall i | 0 <= i < |conds| :: EvalCond(conds[i], args, r) == Some(true)
  }

  /** A parsed clause: conjuncts after 1=1, and for the select the parameters of LIMIT and OFFSET. */
  datatype Clause = Clause(conds: seq<Cond>, paging: Option<(nat, nat)>)

  const ORDER := ["ORDER", "BY", "created_at", "DESC", "LIMIT"]

  function ParseTail(ts: seq<string>): Option<Clause> {
    if ts == [] then Some(Clause([], None))
    else if ts[0] == "AND" && |ts| >= 4 && ParamNo(ts[3]).Some? then
      match ParseTail(ts[4..])
      case None => None
      case Some(rest) => Some(Clause([Cond(ts[1], ts[2], ParamNo(ts[3]).value)] + rest.conds, rest.paging))
    else if |ts| == 8 && ts[..5] == ORDER && ts[6] == "OFFSET" && ParamNo(ts[5]).Some? && ParamNo(ts[7]).Some? then
      Some(Clause([], Some((ParamNo(ts[5]).value, ParamNo(ts[7]).value))))
    else None
  }

  /** What follows WHERE, read as space-separated tokens. */
  function Parse(text: string): Option<Clause> {
    var ts := Text.SplitOn(text, ' ');
    if ts[0] == "1=1" then ParseTail(ts[1..]) else None
  }

  // ----- what the builder writes -----

  function CondTokens(c: Cond): seq<string> {
    ["AND", c.column, c.op, Placeholder(c.param)]
  }

  function TailTokens(conds: seq<Cond>): seq<string> {
    if conds == [] then [] else TailTokens(conds[..|conds| - 1]) + CondTokens(conds[|conds| - 1])
  }

  function Tokens(conds: seq<Cond>): seq<string> {
    ["1=1"] + TailTokens(conds)
  }

  function PagingTokens(k: nat): seq<string> {
    ORDER + [Placeholder(k), "OFFSET", Placeholder(k + 1)]
  }

  datatype Built = Built(conds: seq<Cond>, args: seq<Arg>)

  /** One of the builder's ifs. */
  function AddIf(b: Built, on: bool, column: string, op: string, arg: Arg): Built {
    if on then Built(b.conds + [Cond(column, op, |b.args| + 1)], b.args + [arg]) else b
  }

  function TimeOf(t: Option<int>): Arg {
    TimeArg(if t.Some? then t.value else 0)
  }

  /** The conjuncts and arguments of a filter, in the order they are appended. */
  function Build(f: Filter): Built {
    var b1 := AddIf(Built([], []), f.account != "", "account_id", "=", TextArg(f.account));
    var b2 := AddIf(b1, f.event != "", "action", "=", TextArg(f.event));
    var b3 := AddIf(b2, f.start.Some?, "created_at", ">=", TimeOf(f.start));
    AddIf(b3, f.end.Some?, "created_at", "<=", TimeOf(f.end))
  }

  // ----- parsing what was written -----

  predicate PlainWord(s: string) {
    s != "" && ' ' !in s
  }

  predicate PlainCond(c: Cond) {
    PlainWord(c.column) && PlainWord(c.op)
  }

  function Prepend(conds: seq<Cond>, c: Option<Clause>): Option<Clause> {
    match c
    case None => None
    case Some(clause) => Some(Clause(conds + clause.conds, clause.paging))
  }

  lemma ParseOne(c: Cond, rest: seq<string>)
    ensures ParseTail(CondTokens(c) + rest) == Prepend([c], ParseTail(rest))
  {
    ParamNoBack(c.param);
    hide ParamNo, Placeholder;
    var ts := CondTokens(c) + rest;
    assert ts[0] == "AND" && ts[1] == c.column && ts[2] == c.op && ts[3] == Placeholder(c.param) && ts[4..] == rest;
  }

  lemma ParsePaging(k: nat)
    ensures ParseTail(PagingTokens(k)) == Some(Clause([], Some((k, k + 1))))
  {
    ParamNoBack(k);
    ParamNoBack(k + 1);
    hide ParamNo, Placeholder;
    var ts := PagingTokens(k);
    assert ts[..5] == ORDER && ts[5] == Placeholder(k) && ts[6] == "OFFSET" && ts[7] == Placeholder(k + 1);
    assert ts[0] == "ORDER" && "ORDER"[0] == 'O' && "AND"[0] == 'A';
  }

  lemma PrependTwice(a: seq<Cond>, b: seq<Cond>, c: Option<Clause>)
    ensures Prepend(a, Prepend(b, c)) == Prepend(a + b, c)
    ensures Prepend([], c) == c
  {
    if c.Some? {
      assert a + (b + c.value.conds) == (a + b) + c.value.conds;
      assert [] + c.value.conds == c.value.conds;
    }
  }

  lemma {:induction false} ParseTokens(conds: seq<Cond>, rest: seq<string>)
    ensures ParseTail(TailTokens(conds) + rest) == Prepend(conds, ParseTail(rest))
  {
    hide ParseTail, CondTokens, Prepend;
    if conds == [] {
      assert TailTokens(conds) + rest == rest;
      PrependTwice([], [], ParseTail(rest));
    } else {
      var before, last := conds[..|conds| - 1], conds[|conds| - 1];
      ParseTokens(before, CondTokens(last) + rest);
      ParseOne(last, rest);
      PrependTwice(before, [last], ParseTail(rest));
      assert before + [last] == conds;
      assert TailTokens(conds) + rest == TailTokens(before) + (CondTokens(last) + rest);
    }
  }

  lemma {:induction false} TokensPlain(conds: seq<Cond>)
    requires forall i | 0 <= i < |conds| :: PlainCond(conds[i])
    ensures forall i | 0 <= i < |TailTokens(conds)| :: ' ' !in TailTokens(conds)[i]
  {
    if conds != [] {
      TokensPlain(conds[..|conds| - 1]);
      ParamNoBack(conds[|conds| - 1].param);
      hide ParamNo, Placeholder;
    }
  }

  /** The count's text parses to exactly the conjuncts. */
  lemma WhereParses(conds: seq<Cond>)
    requires forall i | 0 <= i < |conds| :: PlainCond(conds[i])
    ensures Parse(Text.Join(Tokens(conds), ' ')) == Some(Clause(conds, None))
  {
    TokensPlain(conds);
    ParseTokens(conds, []);
    hide TailTokens;
    var ts := Tokens(conds);
    assert ts[0] == "1=1" && ts[1..] == TailTokens(conds) + [];
    Text.SplitJoin(ts, ' ');
    hide Tokens, Text.Join;
    assert conds + [] == conds;
  }

  lemma SelectTokens(conds: seq<Cond>, k: nat)
    requires forall i | 0 <= i < |conds| :: PlainCond(conds[i])
    ensures var ts := Tokens(conds) + PagingTokens(k);
            ts[0] == "1=1" && ts[1..] == TailTokens(conds) + PagingTokens(k) && forall i | 0 <= i < |ts| :: ' ' !in ts[i]
  {
    TokensPlain(conds);
    PagingPlain(k);
    hide TailTokens, PagingTokens;
  }

  /** The select's text parses to the same conjuncts, and pages by the two parameters after them. */
  lemma SelectParses(conds: seq<Cond>, k: nat)
    requires forall i | 0 <= i < |conds| :: PlainCond(conds[i])
    ensures Parse(Text.Join(Tokens(conds) + PagingTokens(k), ' ')) == Some(Clause(conds, Some((k, k + 1))))
  {
    SelectTokens(conds, k);
    hide TailTokens, ParseTail, PagingTokens, Tokens, Text.Join;
    ParsePaging(k);
    ParseTokens(conds, PagingTokens(k));
    Text.SplitJoin(Tokens(conds) + PagingTokens(k), ' ');
    assert conds + [] == conds;
  }

  lemma PagingPlain(k: nat)
    ensures forall i | 0 <= i < |PagingTokens(k)| :: ' ' !in PagingTokens(k)[i]
  {
    ParamNoBack(k);
    ParamNoBack(k + 1);
    hide ParamNo, Placeholder;
    var ts := PagingTokens(k);
    assert ' ' !in ts[0] && ' ' !in ts[1] && ' ' !in ts[2] && ' ' !in ts[3] && ' ' !in ts[4] && ' ' !in ts[5] && ' ' !in ts[6] && ' ' !in ts[7];
  }

  // ----- the built conditions select what the filter describes -----

  /** Parameter i + 1 binds argument i, and words are plain. */
  ghost predicate WellBuilt(b: Built) {
    |b.conds| == |b.args| && forall i | 0 <= i < |b.conds| :: b.conds[i].param == i + 1 && PlainCond(b.conds[i])
  }

  /** Adding a conjunct and its argument keeps every earlier one and asks for one thing more. */
  lemma AddSelects(b: Built, on: bool, column: string, op: string, arg: Arg, r: Record)
    requires WellBuilt(b) && PlainWord(column) && PlainWord(op)
    ensures var b' := AddIf(b, on, column, op, arg);
            && WellBuilt(b') && |b'.args| == |b.args| + (if on then 1 else 0)
            && (Selected(b'.conds, b'.args, r) <==>
                  Selected(b.conds, b.args, r) && (on ==> Compare(column, op, arg, r) == Some(true)))
  {
    hide Compare;
    var b' := AddIf(b, on, column, op, arg);
    forall i | 0 <= i < |b.conds| ensures EvalCond(b'.conds[i], b'.args, r) == EvalCond(b.conds[i], b.args, r) {
      assert b'.conds[i] == b.conds[i];
    }
    if on {
      var c := Cond(column, op, |b.args| + 1);
      assert b'.conds == b.conds + [c] && EvalCond(c, b'.args, r) == Compare(column, op, arg, r);
      hide EvalCond;
      assert b'.conds[|b.conds|] == c;
      assert Selected(b'.conds, b'.args, r) ==> forall i | 0 <= i < |b.conds| :: EvalCond(b'.conds[i], b'.args, r) == Some(true);
    }
  }

  /** For every filter the built conjuncts select exactly the records it describes. */
  lemma BuildSelects(f: Filter, r: Record)
    ensures Selected(Build(f).conds, Build(f).args, r) <==> Matches(f, r)
    ensures WellBuilt(Build(f)) && |Build(f).args| <= 4
  {
    var b0 := Built([], []);
    var b1 := AddIf(b0, f.account != "", "account_id", "=", TextArg(f.account));
    var b2 := AddIf(b1, f.event != "", "action", "=", TextArg(f.event));
    var b3 := AddIf(b2, f.start.Some?, "created_at", ">=", TimeOf(f.start));
    hide AddIf;
    assert WellBuilt(b0) && Selected(b0.conds, b0.args, r);
    hide Selected, WellBuilt;
    AddSelects(b0, f.account != "", "account_id", "=", TextArg(f.account), r);
    AddSelects(b1, f.event != "", "action", "=", TextArg(f.event), r);
    AddSelects(b2, f.start.Some?, "created_at", ">=", TimeOf(f.start), r);
    AddSelects(b3, f.end.Some?, "created_at", "<=", TimeOf(f.end), r);
  }

  // ----- execution -----

  function Filtered(rows: seq<Record>, conds: seq<Cond>, args: seq<Arg>): (r: seq<Record>)
    ensures forall x :: x in r <==> x in rows && Selected(conds, args, x)
  {
    if rows == [] then []
    else
      var last := rows[|rows| - 1];
      Filtered(rows[..|rows| - 1], conds, args) + if Selected(conds, args, last) then [last] else []
  }

  function Matching(rows: seq<Record>, f: Filter): (r: seq<Record>)
    ensures forall x :: x in r <==> x in rows && Matches(f, x)
  {
    if rows == [] then []
    else
      var last := rows[|rows| - 1];
      Matching(rows[..|rows| - 1], f) + if Matches(f, last) then [last] else []
  }

  /** LIMIT and OFFSET on the selected rows; a negative number is an error. */
  function Window(rows: seq<Record>, limit: int, offset: int): Option<seq<Record>> {
    if limit < 0 || offset < 0 then None
    else
      var from := if offset < |rows| then offset else |rows|;
      var to := if from + limit < |rows| then from + limit else |rows|;
      Some(rows[from..to])
  }

  /** What the database answers to the text after WHERE, rows being in the order it chose. */
  function Execute(text: string, args: seq<Arg>, rows: seq<Record>): Option<seq<Record>> {
    match Parse(text)
    case None => None
    case Some(clause) =>
      var selected := Filtered(rows, clause.conds, args);
      match clause.paging
      case None => Some(selected)
      case Some((l, o)) =>
        if 1 <= l <= |args| && 1 <= o <= |args| && args[l - 1].IntArg? && args[o - 1].IntArg?
        then Window(selected, args[l - 1].n, args[o - 1].n)
        else None
  }

  // ----- pagination arithmetic -----

  const INT64 := 0x1_0000_0000_0000_0000

  /** Go's int wraps at 64 bits. */
  function Wrap(x: int): int {
    var m := x % INT64;
    if m < INT64 / 2 then m else m - INT64
  }

  function PageOf(f: Filter): int {
    if f.page < 1 then 1 else f.page
  }

  function SizeOf(f: Filter): (n: nat)
    ensures 1 <= n <= MAX_PAGE_SIZE
  {
    if f.pageSize < 1 || f.pageSize > MAX_PAGE_SIZE then 20 else f.pageSize
  }

  /** clampAuditPagination. */
  method Clamp(page: int, pageSize: int) returns (p: int, size: int, offset: int)
    ensures p == PageOf(Filter("", "", None, None, page, pageSize))
    ensures size == SizeOf(Filter("", "", None, None, page, pageSize))
    ensures offset == Wrap((p - 1) * size)
  {
    p, size := page, pageSize;
    if p < 1 { p := 1; }
    if size < 1 || size > MAX_PAGE_SIZE { size := 20; }
    offset := Wrap((p - 1) * size);
  }

  /** The offset is the mathematical one exactly as long as it fits. */
  lemma OffsetExact(page: int, size: int)
    requires 1 <= page && 1 <= size
    ensures Wrap((page - 1) * size) == (page - 1) * size <==> (page - 1) * size < INT64 / 2
  {
    var x := (page - 1) * size;
    assert x >= 0;
  }

  // ----- the text as it is appended -----

  lemma AppendCond(conds: seq<Cond>, c: Cond)
    ensures Text.Join(Tokens(conds + [c]), ' ')
         == Text.Join(Tokens(conds), ' ') + " AND " + c.column + " " + c.op + " " + Placeholder(c.param)
  {
    hide Placeholder;
    assert (conds + [c])[..|conds|] == conds;
    assert Tokens(conds + [c]) == Tokens(conds) + CondTokens(c);
    Text.JoinAppend(Tokens(conds), CondTokens(c), ' ');
    Text.JoinFour("AND", c.column, c.op, Placeholder(c.param));
    hide Tokens, Text.Join;
  }

  function OrderText(k: nat): string {
    " ORDER BY created_at DESC" + " LIMIT " + Placeholder(k) + " OFFSET " + Placeholder(k + 1)
  }

  /** The literals of the builder, word by word. */
  lemma TextLiterals(w: string, p: string)
    ensures w + " AND account_id = " + p == w + " AND " + "account_id" + " " + "=" + " " + p
    ensures w + " AND action = " + p == w + " AND " + "action" + " " + "=" + " " + p
  {
    assert " AND " + "account_id" + " " + "=" + " " == " AND account_id = ";
    assert " AND " + "action" + " " + "=" + " " == " AND action = ";
  }

  lemma TimeLiterals(w: string, p: string)
    ensures w + " AND created_at >= " + p == w + " AND " + "created_at" + " " + ">=" + " " + p
    ensures w + " AND created_at <= " + p == w + " AND " + "created_at" + " " + "<=" + " " + p
  {
    assert " AND " + "created_at" + " " + ">=" + " " == " AND created_at >= ";
    assert " AND " + "created_at" + " " + "<=" + " " == " AND created_at <= ";
  }

  lemma Regroup(w: string, a: string, b: string, p: string, c: string, q: string)
    ensures w + [' '] + (a + [' '] + (b + " " + p + " " + c + " " + q)) == w + (([' '] + a) + (" " + b + " ") + p + (" " + c + " ") + q)
  {
  }

  lemma OrderLiteral()
    ensures [' '] + ("ORDER" + " " + "BY" + " " + "created_at" + " " + "DESC") == " ORDER BY created_at DESC"
    ensures " " + "LIMIT" + " " == " LIMIT " && " " + "OFFSET" + " " == " OFFSET "
  {
  }

  lemma PagingText(k: nat)
    ensures Text.Join(PagingTokens(k), ' ')
         == "ORDER" + " " + "BY" + " " + "created_at" + " " + "DESC" + [' '] + ("LIMIT" + " " + Placeholder(k) + " " + "OFFSET" + " " + Placeholder(k + 1))
  {
    hide Placeholder;
    var p, q := Placeholder(k), Placeholder(k + 1);
    Text.JoinFour("ORDER", "BY", "created_at", "DESC");
    Text.JoinFour("LIMIT", p, "OFFSET", q);
    Text.JoinAppend(["ORDER", "BY", "created_at", "DESC"], ["LIMIT", p, "OFFSET", q], ' ');
    hide Text.Join;
    assert PagingTokens(k) == ["ORDER", "BY", "created_at", "DESC"] + ["LIMIT", p, "OFFSET", q];
  }

  lemma AppendPaging(conds: seq<Cond>, k: nat)
    ensures Text.Join(Tokens(conds) + PagingTokens(k), ' ') == Text.Join(Tokens(conds), ' ') + OrderText(k)
  {
    hide Placeholder, Text.Join;
    assert PagingTokens(k) != [];
    Text.JoinAppend(Tokens(conds), PagingTokens(k), ' ');
    hide Tokens, PagingTokens;
    PagingText(k);
    OrderLiteral();
    Regroup(Text.Join(Tokens(conds), ' '), "ORDER" + " " + "BY" + " " + "created_at" + " " + "DESC", "LIMIT", Placeholder(k),
            "OFFSET", Placeholder(k + 1));
  }

  lemma {:induction false} FilteredMatches(rows: seq<Record>, f: Filter, args: seq<Arg>)
    requires |args| >= |Build(f).args| && args[..|Build(f).args|] == Build(f).args
    ensures Filtered(rows, Build(f).conds, args) == Matching(rows, f)
  {
    hide Build;
    if rows != [] {
      var r := rows[|rows| - 1];
      FilteredMatches(rows[..|rows| - 1], f, args);
      BuildSelects(f, r);
      MoreArgs(Build(f), args, r);
    }
  }

  /** The paging arguments appended for the select change no condition. */
  lemma MoreArgs(b: Built, args: seq<Arg>, r: Record)
    requires WellBuilt(b) && |args| >= |b.args| && args[..|b.args|] == b.args
    ensures Selected(b.conds, args, r) <==> Selected(b.conds, b.args, r)
  {
    hide Compare;
    forall i | 0 <= i < |b.conds| ensures EvalCond(b.conds[i], args, r) == EvalCond(b.conds[i], b.args, r) {
      assert args[i] == args[..|b.args|][i];
    }
  }

  /** A text and arguments under construction stand for the conjuncts built so far. */
  ghost predicate Stands(b: Built, where: string, args: seq<Arg>, paramIdx: nat) {
    where == Text.Join(Tokens(b.conds), ' ') && args == b.args && paramIdx == |args| + 1
  }

  lemma StandsAfter(b: Built, where: string, args: seq<Arg>, paramIdx: nat, column: string, op: string, arg: Arg)
    requires Stands(b, where, args, paramIdx)
    ensures Stands(AddIf(b, true, column, op, arg), where + " AND " + column + " " + op + " " + Placeholder(paramIdx), args + [arg], paramIdx + 1)
  {
    hide Tokens, Placeholder, Text.Join;
    AppendCond(b.conds, Cond(column, op, paramIdx));
  }

  /** Query builds the WHERE text and its arguments step by step. */
  method BuildWhere(f: Filter) returns (where: string, args: seq<Arg>, paramIdx: nat)
    ensures where == Text.Join(Tokens(Build(f).conds), ' ')
    ensures args == Build(f).args && paramIdx == |args| + 1
  {
    where := "1=1";
    args, paramIdx := [], 1;
    ghost var b := Built([], []);
    JoinNothing();
    assert Stands(b, where, args, paramIdx);
    hide Stands, Placeholder, Text.Join, Tokens;
    if f.account != "" {
      TextLiterals(where, Placeholder(paramIdx));
      StandsAfter(b, where, args, paramIdx, "account_id", "=", TextArg(f.account));
      where := where + " AND account_id = " + Placeholder(paramIdx);
      args := args + [TextArg(f.account)];
      paramIdx := paramIdx + 1;
    }
    b := AddIf(b, f.account != "", "account_id", "=", TextArg(f.account));
    if f.event != "" {
      TextLiterals(where, Placeholder(paramIdx));
      StandsAfter(b, where, args, paramIdx, "action", "=", TextArg(f.event));
      where := where + " AND action = " + Placeholder(paramIdx);
      args := args + [TextArg(f.event)];
      paramIdx := paramIdx + 1;
    }
    b := AddIf(b, f.event != "", "action", "=", TextArg(f.event));
    if f.start.Some? {
      TimeLiterals(where, Placeholder(paramIdx));
      StandsAfter(b, where, args, paramIdx, "created_at", ">=", TimeArg(f.start.value));
      where := where + " AND created_at >= " + Placeholder(paramIdx);
      args := args + [TimeArg(f.start.value)];
      paramIdx := paramIdx + 1;
    }
    b := AddIf(b, f.start.Some?, "created_at", ">=", TimeOf(f.start));
    if f.end.Some? {
      TimeLiterals(where, Placeholder(paramIdx));
      StandsAfter(b, where, args, paramIdx, "created_at", "<=", TimeArg(f.end.value));
      where := where + " AND created_at <= " + Placeholder(paramIdx);
      args := args + [TimeArg(f.end.value)];
      paramIdx := paramIdx + 1;
    }
    b := AddIf(b, f.end.Some?, "created_at", "<=", TimeOf(f.end));
    StandsMeans(b, where, args, paramIdx);
  }

  lemma StandsMeans(b: Built, where: string, args: seq<Arg>, paramIdx: nat)
    requires Stands(b, where, args, paramIdx)
    ensures where == Text.Join(Tokens(b.conds), ' ') && args == b.args && paramIdx == |args| + 1
  {
  }

  lemma JoinNothing()
    ensures Text.Join(Tokens([]), ' ') == "1=1"
  {
    assert Tokens([]) == ["1=1"];
  }

  // ----- the query -----

  datatype QueryError = CountFailed | SelectFailed

  /** Page p of a list, counted from 1. */
  function Page(rows: seq<Record>, size: nat, p: nat): seq<Record>
    requires p >= 1
  {
    var from := if (p - 1) * size < |rows| then (p - 1) * size else |rows|;
    var to := if from + size < |rows| then from + size else |rows|;
    rows[from..to]
  }

  /** What goes out for the matches of the select: the rows at the wrapped offset, or its failure. */
  function Answer(f: Filter, matches: seq<Record>, total: nat): Result<(seq<Record>, nat), QueryError> {
    match Window(matches, SizeOf(f), Wrap((PageOf(f) - 1) * SizeOf(f)))
    case None => Err(SelectFailed)
    case Some(rows) => Ok((rows, total))
  }

  /**
   The page asked for goes out exactly if the offset fits in 64 bits, or wraps
   to a number at or past the end. A table holds fewer than 2^63 rows, since
   COUNT is a 64-bit number.
   */
  lemma AnswerExact(f: Filter, matches: seq<Record>, total: nat)
    requires |matches| < INT64 / 2
    ensures Answer(f, matches, total) == Ok((Page(matches, SizeOf(f), PageOf(f)), total))
       <==> (PageOf(f) - 1) * SizeOf(f) < INT64 / 2 || Wrap((PageOf(f) - 1) * SizeOf(f)) >= |matches|
  {
    var p, size := PageOf(f), SizeOf(f);
    var x := (p - 1) * size;
    OffsetExact(p, size);
    if x < INT64 / 2 { PageIsWindow(matches, size, p); } else { PastTheEnd(matches, size, p, Wrap(x)); }
    hide Wrap, Window, Page;
  }

  lemma PageIsWindow(rows: seq<Record>, size: nat, p: nat)
    requires p >= 1
    ensures (p - 1) * size >= 0 && Window(rows, size, (p - 1) * size) == Some(Page(rows, size, p))
  {
  }

  /** Of a page past the end, only a window past the end (or no window) is not a row too many. */
  lemma PastTheEnd(rows: seq<Record>, size: nat, p: nat, offset: int)
    requires p >= 1 && size >= 1 && (p - 1) * size >= |rows|
    ensures Page(rows, size, p) == []
    ensures Window(rows, size, offset) == Some([]) <==> offset >= |rows|
  {
    assert 0 <= offset < |rows| ==> |Window(rows, size, offset).value| > 0;
  }

  /** Page 2^58 + 1 of 64 records wraps to offset 0: any first page goes out as that one, which is empty. */
  lemma WrongPage(f: Filter, matches: seq<Record>, total: nat)
    requires f.page == 288230376151711745 && f.pageSize == 64 && 0 < |matches| < INT64 / 2
    ensures Answer(f, matches, total) == Ok((Page(matches, 64, 1), total))
    ensures Page(matches, 64, f.page) == [] && Page(matches, 64, 1) != []
  {
    assert (f.page - 1) * 64 == INT64;
    assert Wrap(INT64) == 0;
  }

  lemma CountExecutes(f: Filter, rows: seq<Record>)
    ensures Execute(Text.Join(Tokens(Build(f).conds), ' '), Build(f).args, rows) == Some(Matching(rows, f))
  {
    if rows != [] { BuildSelects(f, rows[0]); } else { BuildSelects(f, Record(0, None, "", 0)); }
    hide Build, Parse, Tokens, Text.Join, Matching, Filtered;
    WhereParses(Build(f).conds);
    FilteredMatches(rows, f, Build(f).args);
  }

  lemma SelectExecutes(f: Filter, rows: seq<Record>, size: int, offset: int)
    ensures Execute(Text.Join(Tokens(Build(f).conds), ' ') + OrderText(|Build(f).args| + 1),
                    Build(f).args + [IntArg(size), IntArg(offset)], rows)
            == Window(Matching(rows, f), size, offset)
  {
    BuildSelects(f, Record(0, None, "", 0));
    hide Build, Parse, Tokens, Text.Join, Matching, Filtered, OrderText, PagingTokens, Window;
    var b := Build(f);
    var args := b.args + [IntArg(size), IntArg(offset)];
    AppendPaging(b.conds, |b.args| + 1);
    SelectParses(b.conds, |b.args| + 1);
    assert args[..|b.args|] == b.args;
    FilteredMatches(rows, f, args);
  }

  /**
   Query against a table: countRows is its content when it is counted, rows its
   content, in the order the database chose, when the page is selected.
   */
  method Query(f: Filter, countRows: seq<Record>, rows: seq<Record>) returns (r: Result<(seq<Record>, nat), QueryError>)
    ensures Matching(countRows, f) == [] ==> r == Ok(([], 0))
    ensures Matching(countRows, f) != [] ==> r == Answer(f, Matching(rows, f), |Matching(countRows, f)|)
    ensures Matching(countRows, f) != [] && (PageOf(f) - 1) * SizeOf(f) < INT64 / 2 ==>
              r == Ok((Page(Matching(rows, f), SizeOf(f), PageOf(f)), |Matching(countRows, f)|))
  {
    hide Matching, Execute, Build, Tokens, Text.Join, Placeholder;
    var p, size, offset := Clamp(f.page, f.pageSize);
    var where, args, paramIdx := BuildWhere(f);
    CountExecutes(f, countRows);
    var counted := Execute(where, args, countRows);
    if counted.None? { return Err(CountFailed); }
    var total := |counted.value|;
    if total == 0 { return Ok(([], 0)); }
    SelectExecutes(f, rows, size, offset);
    OffsetExact(p, size);
    assert p == PageOf(f) && size == SizeOf(f);
    var selected := Execute(where + OrderText(paramIdx), args + [IntArg(size), IntArg(offset)], rows);
    hide Wrap;
    if selected.None? { return Err(SelectFailed); }
    return Ok((selected.value, total));
  }

  // ----- pages of one order -----

  function FirstPages(rows: seq<Record>, size: nat, n: nat): seq<Record> {
    if n == 0 then [] else FirstPages(rows, size, n - 1) + Page(rows, size, n)
  }

  /** With a fixed order pages 1, 2, ... list each match once, in order. */
  lemma {:induction false} PagesListAll(rows: seq<Record>, size: nat, n: nat)
    requires size >= 1
    ensures FirstPages(rows, size, n) == rows[..if n * size < |rows| then n * size else |rows|]
  {
    if n > 0 {
      PagesListAll(rows, size, n - 1);
      assert n * size == (n - 1) * size + size && (n - 1) * size >= 0;
    }
  }

  // ----- the order is only by time -----

  predicate Newest(rows: seq<Record>) {
    forall i, j | 0 <= i < j < |rows| :: rows[i].created >= rows[j].created
  }

  /** An order the database may choose for ORDER BY created_at DESC. */
  predicate OrderOf(o: seq<Record>, rows: seq<Record>) {
    multiset(o) == multiset(rows) && Newest(o)
  }

  /** No two records of one time. */
  predicate StrictlyNewest(rows: seq<Record>) {
    forall i, j | 0 <= i < j < |rows| :: rows[i].created > rows[j].created
  }

  lemma TailMultiset(s: seq<Record>)
    requires s != []
    ensures multiset(s[1..]) == multiset(s) - multiset{s[0]}
  {
    assert s == [s[0]] + s[1..];
  }

  lemma SameFirst(o: seq<Record>, o': seq<Record>)
    requires StrictlyNewest(o) && Newest(o') && o != [] && multiset(o) == multiset(o')
    ensures o' != [] && o'[0] == o[0]
  {
    assert o[0] in multiset(o');
    var i :| 0 <= i < |o'| && o'[i] == o[0];
    assert o'[0] in multiset(o);
    var j :| 0 <= j < |o| && o[j] == o'[0];
  }

  /** Without ties there is only one such order, so all requests page through the same list. */
  lemma {:induction false} OneOrder(o: seq<Record>, o': seq<Record>)
    requires StrictlyNewest(o) && OrderOf(o', o)
    ensures o' == o
  {
    if o == [] {
      assert |multiset(o')| == 0;
    } else {
      SameFirst(o, o');
      TailMultiset(o);
      TailMultiset(o');
      OneOrder(o[1..], o'[1..]);
      assert o == [o[0]] + o[1..] && o' == [o'[0]] + o'[1..];
    }
  }

  function Swapped(o: seq<Record>, i: nat): seq<Record>
    requires i + 1 < |o|
  {
    o[i := o[i + 1]][i + 1 := o[i]]
  }

  lemma SwapIsOrder(o: seq<Record>, i: nat)
    requires Newest(o) && i + 1 < |o| && o[i].created == o[i + 1].created
    ensures OrderOf(Swapped(o, i), o)
  {
  }

  /** With a tie, two requests may be answered in different orders, and a record shows up on two pages. */
  lemma TiesRepeat(o: seq<Record>, i: nat)
    requires Newest(o) && i + 1 < |o| && o[i].created == o[i + 1].created && o[i] != o[i + 1]
    ensures OrderOf(Swapped(o, i), o)
    ensures Page(o, 1, i + 1) == [o[i]] && Page(Swapped(o, i), 1, i + 2) == [o[i]]
  {
    SwapIsOrder(o, i);
    hide OrderOf, Newest;
  }
}
