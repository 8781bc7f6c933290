/**
 The batch statements of internal/account/repository/credential_repository_impl.go:
 the VALUES list of CreateCredentials, whose placeholder 12*i+j+1 binds column
 j of credential i, and the IN list of FindByAccountAndTypes.
 */
module CredentialInsert {
  import opened Common
  import opened Decimal
  import opened SqlText
  import Text

  /** metadata is the JSON text, None when marshalling fails. */
  datatype Credential = Credential(
    id: string, account: string, kind: string, identifier: Option<string>, value: string, verified: bool,
    primary: bool, metadata: Option<string>, createdAt: int, updatedAt: int, verifiedAt: Option<int>, lastUsedAt: Option<int>)

  datatype Arg = TextArg(s: string) | BoolArg(b: bool) | TimeArg(t: int) | NullArg

  const COLUMNS := 12

  function OptText(s: Option<string>): Arg {
    match s case None => NullArg case Some(t) => TextArg(t)
  }

  function OptTime(t: Option<int>): Arg {
    match t case None => NullArg case Some(u) => TimeArg(u)
  }

  /** The arguments of one credential, in column order. */
  function Values(c: Credential): (r: seq<Arg>)
    ensures |r| == COLUMNS
  {
    [TextArg(c.id), TextArg(c.account), TextArg(c.kind), OptText(c.identifier), TextArg(c.value), BoolArg(c.verified),
     BoolArg(c.primary), OptText(c.metadata), TimeArg(c.createdAt), TimeArg(c.updatedAt), OptTime(c.verifiedAt), OptTime(c.lastUsedAt)]
  }

  /** A stored row, column by column as the INSERT names them; None when a value does not fit its column. */
  function FromRow(r: seq<Arg>): Option<Credential> {
    if |r| == COLUMNS && r[0].TextArg? && r[1].TextArg? && r[2].TextArg? && Nullable(r[3], true) && r[4].TextArg?
       && r[5].BoolArg? && r[6].BoolArg? && Nullable(r[7], true) && r[8].TimeArg? && r[9].TimeArg?
       && Nullable(r[10], false) && Nullable(r[11], false)
    then Some(Credential(r[0].s, r[1].s, r[2].s, TextOf(r[3]), r[4].s, r[5].b, r[6].b, TextOf(r[7]), r[8].t, r[9].t,
                         TimeOf(r[10]), TimeOf(r[11])))
    else None
  }

  predicate Nullable(a: Arg, text: bool) {
    a.NullArg? || (text && a.TextArg?) || (!text && a.TimeArg?)
  }

  function TextOf(a: Arg): Option<string>
    requires Nullable(a, true)
  {
    if a.NullArg? then None else Some(a.s)
  }

  function TimeOf(a: Arg): Option<int>
    requires Nullable(a, false)
  {
    if a.NullArg? then None else Some(a.t)
  }

  // ----- reading a VALUES list -----

  function Params(words: seq<string>): Option<seq<nat>> {
    if words == [] then Some([])
    else
      match (Params(words[..|words| - 1]), ParamNo(words[|words| - 1]))
      case (Some(ps), Some(p)) => Some(ps + [p])
      case _ => None
  }

  /** Text up to a closing parenthesis: a tuple of placeholders, after a comma unless it is the first. */
  function ParseTuple(part: string, first: bool): Option<seq<nat>> {
    var open := if first then "(" else ",(";
    if |open| <= |part| && part[..|open|] == open then Params(Text.SplitOn(part[|open|..], ',')) else None
  }

  function ParseTuples(parts: seq<string>): Option<seq<seq<nat>>> {
    if parts == [] then Some([])
    else
      match (ParseTuples(parts[..|parts| - 1]), ParseTuple(parts[|parts| - 1], |parts| == 1))
      case (Some(ts), Some(t)) => Some(ts + [t])
      case _ => None
  }

  /** The tuples of a VALUES list. */
  function ParseValues(text: string): Option<seq<seq<nat>>> {
    var parts := Text.SplitOn(text, ')');
    if parts[|parts| - 1] != "" then None else ParseTuples(parts[..|parts| - 1])
  }

  function Bind(params: seq<nat>, args: seq<Arg>): Option<seq<Arg>> {
    if exists i :: 0 <= i < |params| && !(1 <= params[i] <= |args|) then None
    else Some(seq(|params|, i requires 0 <= i < |params| => if 1 <= params[i] <= |args| then args[params[i] - 1] else NullArg))
  }

  function BindRow(params: seq<nat>, args: seq<Arg>): Option<Credential> {
    match Bind(params, args) case None => None case Some(r) => FromRow(r)
  }

  function BindAll(ts: seq<seq<nat>>, args: seq<Arg>): Option<seq<Credential>> {
    if ts == [] then Some([])
    else
      match (BindAll(ts[..|ts| - 1], args), BindRow(ts[|ts| - 1], args))
      case (Some(rows), Some(row)) => Some(rows + [row])
      case _ => None
  }

  /** The rows a statement inserts; None when it is malformed. */
  function Inserted(text: string, args: seq<Arg>): Option<seq<Credential>> {
    match ParseValues(text)
    case None => None
    case Some(ts) => BindAll(ts, args)
  }

  // ----- writing one -----

  function Words(base: nat, n: nat): (r: seq<string>)
    ensures |r| == n && forall j | 0 <= j < n :: r[j] == Placeholder(base + j + 1)
  {
    seq(n, j requires 0 <= j < n => Placeholder(base + j + 1))
  }

  function Numbers(base: nat, n: nat): (r: seq<nat>)
    ensures |r| == n && forall j | 0 <= j < n :: r[j] == base + j + 1
  {
    seq(n, j requires 0 <= j < n => base + j + 1)
  }

  /** Credential i's part of the text, without the closing parenthesis. */
  function TuplePart(i: nat): string {
    (if i == 0 then "(" else ",(") + Text.Join(Words(i * COLUMNS, COLUMNS), ',')
  }

  function TupleParts(n: nat): (r: seq<string>)
    ensures |r| == n && forall i | 0 <= i < n :: r[i] == TuplePart(i)
  {
    seq(n, i requires 0 <= i < n => TuplePart(i))
  }

  /** The numbers of n tuples. */
  function NumberRows(n: nat): (r: seq<seq<nat>>)
    ensures |r| == n && forall i | 0 <= i < n :: r[i] == Numbers(i * COLUMNS, COLUMNS)
  {
    seq(n, i requires 0 <= i < n => Numbers(i * COLUMNS, COLUMNS))
  }

  function ValuesText(n: nat): string {
    if n == 0 then "" else ValuesText(n - 1) + TuplePart(n - 1) + ")"
  }

  function AllArgs(creds: seq<Credential>): seq<Arg> {
    if creds == [] then [] else AllArgs(creds[..|creds| - 1]) + Values(creds[|creds| - 1])
  }

  lemma {:induction false} ParamsOfWords(base: nat, n: nat)
    ensures Params(Words(base, n)) == Some(Numbers(base, n))
  {
    hide ParamNo, Placeholder;
    if n > 0 {
      ParamsOfWords(base, n - 1);
      ParamNoBack(base + n);
      assert Words(base, n)[..n - 1] == Words(base, n - 1);
      assert Numbers(base, n) == Numbers(base, n - 1) + [base + n];
    }
  }

  lemma WordsPlain(base: nat, n: nat)
    ensures forall j | 0 <= j < n :: ',' !in Words(base, n)[j] && ')' !in Words(base, n)[j]
  {
    forall j | 0 <= j < n ensures ',' !in Words(base, n)[j] && ')' !in Words(base, n)[j] { ParamNoBack(base + j + 1); hide Placeholder; }
  }

  lemma {:induction false} JoinPlain(parts: seq<string>, sep: char, c: char)
    requires c != sep && forall j | 0 <= j < |parts| :: c !in parts[j]
    ensures c !in Text.Join(parts, sep)
  {
    if |parts| > 1 { JoinPlain(parts[1..], sep, c); }
  }

  lemma TupleBack(i: nat)
    ensures ParseTuple(TuplePart(i), i == 0) == Some(Numbers(i * COLUMNS, COLUMNS)) && ')' !in TuplePart(i)
  {
    var base := i * COLUMNS;
    WordsPlain(base, COLUMNS);
    ParamsOfWords(base, COLUMNS);
    hide Words, Numbers, Params;
    Text.SplitJoin(Words(base, COLUMNS), ',');
    JoinPlain(Words(base, COLUMNS), ',', ')');
    hide Text.Join;
    var open := if i == 0 then "(" else ",(";
    assert TuplePart(i)[|open|..] == Text.Join(Words(base, COLUMNS), ',');
  }

  lemma {:induction false} TuplesBack(n: nat)
    ensures ParseTuples(TupleParts(n)) == Some(NumberRows(n))
  {
    hide Numbers, TuplePart, ParseTuple;
    if n > 0 {
      TuplesBack(n - 1);
      TupleBack(n - 1);
      assert TupleParts(n)[..n - 1] == TupleParts(n - 1);
      assert NumberRows(n) == NumberRows(n - 1) + [Numbers((n - 1) * COLUMNS, COLUMNS)];
    }
  }

  lemma JoinEnds(parts: seq<string>, last: string)
    ensures Text.Join(parts + [last] + [""], ')') == Text.Join(parts + [""], ')') + last + ")"
  {
    if parts == [] {
      assert [] + [last] + [""] == [last, ""] && [last, ""][1..] == [""] && [] + [""] == [""];
    } else {
      Text.JoinAppend(parts, [""], ')');
      Text.JoinAppend(parts, [last], ')');
      Text.JoinAppend(parts + [last], [""], ')');
    }
  }

  lemma {:induction false} TextJoins(n: nat)
    ensures ValuesText(n) == Text.Join(TupleParts(n) + [""], ')')
  {
    hide TuplePart, Text.Join;
    if n == 0 {
      JoinNone();
    } else {
      TextJoins(n - 1);
      JoinEnds(TupleParts(n - 1), TuplePart(n - 1));
      assert TupleParts(n) == TupleParts(n - 1) + [TuplePart(n - 1)];
    }
  }

  lemma JoinNone()
    ensures Text.Join(TupleParts(0) + [""], ')') == ""
  {
    assert TupleParts(0) + [""] == [""];
  }

  /** The text parses to n tuples, tuple i holding the numbers 12*i+1 .. 12*i+12. */
  lemma ValuesParse(n: nat)
    ensures ParseValues(ValuesText(n)) == Some(NumberRows(n))
  {
    TextJoins(n);
    TuplesBack(n);
    var parts := TupleParts(n) + [""];
    forall i | 0 <= i < |parts| ensures ')' !in parts[i] {
      if i < n { TupleBack(i); }
      hide TuplePart;
    }
    hide TupleParts, ValuesText, ParseTuples;
    Text.SplitJoin(parts, ')');
    assert parts[..n] == TupleParts(n);
  }

  /** Argument 12*i+j is column j of credential i. */
  lemma {:induction false} ArgAt(creds: seq<Credential>, i: nat, j: nat)
    requires i < |creds| && j < COLUMNS
    ensures |AllArgs(creds)| == |creds| * COLUMNS && AllArgs(creds)[i * COLUMNS + j] == Values(creds[i])[j]
  {
    hide Values;
    var last := |creds| - 1;
    ArgsLength(creds);
    ArgsLength(creds[..last]);
    if i < last { ArgAt(creds[..last], i, j); }
  }

  lemma {:induction false} ArgsLength(creds: seq<Credential>)
    ensures |AllArgs(creds)| == |creds| * COLUMNS
  {
    hide Values;
    if creds != [] { ArgsLength(creds[..|creds| - 1]); }
  }

  lemma RowBack(c: Credential)
    ensures FromRow(Values(c)) == Some(c)
  {
  }

  lemma BindsRow(creds: seq<Credential>, i: nat)
    requires i < |creds|
    ensures Bind(Numbers(i * COLUMNS, COLUMNS), AllArgs(creds)) == Some(Values(creds[i]))
  {
    hide AllArgs, Values;
    var params, args := Numbers(i * COLUMNS, COLUMNS), AllArgs(creds);
    ArgsLength(creds);
    forall j: nat | j < COLUMNS ensures params[j] - 1 == i * COLUMNS + j && args[params[j] - 1] == Values(creds[i])[j] {
      ArgAt(creds, i, j);
    }
    assert Bind(params, args).Some?;
    assert Bind(params, args).value == Values(creds[i]);
  }

  lemma {:induction false} BindsRows(creds: seq<Credential>, n: nat)
    requires n <= |creds|
    ensures BindAll(NumberRows(n), AllArgs(creds)) == Some(creds[..n])
  {
    hide AllArgs, Values, Bind, Numbers, FromRow;
    if n > 0 {
      BindsRows(creds, n - 1);
      BindsRow(creds, n - 1);
      RowBack(creds[n - 1]);
      assert NumberRows(n)[..n - 1] == NumberRows(n - 1);
      assert creds[..n] == creds[..n - 1] + [creds[n - 1]];
    }
  }

  /** For any batch the statement inserts exactly the credentials, in order, each value in its column. */
  lemma BatchInsertsAll(creds: seq<Credential>)
    ensures Inserted(ValuesText(|creds|), AllArgs(creds)) == Some(creds)
  {
    hide ValuesText, ParseValues, AllArgs, BindAll, NumberRows;
    ValuesParse(|creds|);
    BindsRows(creds, |creds|);
    assert creds[..|creds|] == creds;
  }

  /** The placeholders are the parameters 1 .. 12n, each used once: PostgreSQL's limit of 65535 is kept up to 5461 credentials. */
  lemma ParameterLimit(n: nat)
    ensures (forall i | 0 <= i < n :: NumberRows(n)[i][COLUMNS - 1] <= 65535) <==> n <= 5461
  {
    forall i | 0 <= i < n ensures NumberRows(n)[i][COLUMNS - 1] == 12 * i + 12 { }
    if n > 5461 { assert NumberRows(n)[5461][COLUMNS - 1] == 65544; }
  }

  datatype Outcome = NothingToDo | MarshalFailed | Executed(text: string, args: seq<Arg>)

  /** Builder and argument slice grow credential by credential. */
  method CreateCredentials(creds: seq<Credential>) returns (r: Outcome)
    ensures creds == [] <==> r.NothingToDo?
    ensures r.MarshalFailed? <==> exists i :: 0 <= i < |creds| && creds[i].metadata.None?
    ensures r.Executed? ==> Inserted(r.text, r.args) == Some(creds)
  {
    hide Values, TuplePart, ValuesText, AllArgs, Inserted, Words, Text.Join;
    if creds == [] { return NothingToDo; }
    var buf, args := "", [];
    BuildStart(creds);
    for i := 0 to |creds|
      invariant buf == ValuesText(i) && args == AllArgs(creds[..i])
      invariant forall j | 0 <= j < i :: creds[j].metadata.Some?
    {
      if creds[i].metadata.None? { return MarshalFailed; }
      BuildStep(creds, i);
      var base := i * COLUMNS;
      var open := if i > 0 then ",(" else "(";
      buf := buf + (open + Text.Join(Words(base, COLUMNS), ',')) + ")";
      args := args + Values(creds[i]);
    }
    assert creds[..|creds|] == creds;
    BatchInsertsAll(creds);
    return Executed(buf, args);
  }

  lemma BuildStart(creds: seq<Credential>)
    ensures ValuesText(0) == "" && AllArgs(creds[..0]) == []
  {
  }

  lemma BuildStep(creds: seq<Credential>, i: nat)
    requires i < |creds|
    ensures ValuesText(i + 1) == ValuesText(i) + ((if i > 0 then ",(" else "(") + Text.Join(Words(i * COLUMNS, COLUMNS), ',')) + ")"
    ensures AllArgs(creds[..i + 1]) == AllArgs(creds[..i]) + Values(creds[i])
  {
    hide Values, Words, Text.Join;
    assert creds[..i + 1][..i] == creds[..i];
  }

  // ----- the query by account and types -----

  /** A row of account_credentials. */
  datatype Row = Row(credential: Credential, deletedAt: Option<int>)

  datatype Cond = Equal(column: string, param: nat) | IsNull(column: string) | In(column: string, params: seq<nat>)

  datatype Where = Where(conds: seq<Cond>, order: seq<string>)

  /** Line breaks and tabs separate words as spaces do. */
  function Blanked(s: string): string {
    seq(|s|, i requires 0 <= i < |s| => if s[i] == '\n' || s[i] == '\t' then ' ' else s[i])
  }

  /** A parenthesised list of placeholders. */
  function ParseList(s: string): Option<seq<nat>> {
    if |s| >= 2 && s[0] == '(' && s[|s| - 1] == ')' then Params(Text.SplitOn(s[1..|s| - 1], ',')) else None
  }

  function ParseCond(column: string, op: string, operand: string): Option<Cond> {
    if op == "=" && ParamNo(operand).Some? then Some(Equal(column, ParamNo(operand).value))
    else if op == "IS" && operand == "NULL" then Some(IsNull(column))
    else if op == "IN" && ParseList(operand).Some? then Some(In(column, ParseList(operand).value))
    else None
  }

  /** Conditions joined by AND, then ORDER BY; empty words are skipped. */
  function ParseConds(ts: seq<string>): Option<Where> {
    if |ts| < 3 || ParseCond(ts[0], ts[1], ts[2]).None? then None
    else
      var c := ParseCond(ts[0], ts[1], ts[2]).value;
      if |ts| > 3 && ts[3] == "AND" then
        match ParseConds(ts[4..])
        case None => None
        case Some(w) => Some(w.(conds := [c] + w.conds))
      else
        match ParseOrder(ts[3..])
        case None => None
        case Some(order) => Some(Where([c], order))
  }

  function ParseOrder(ts: seq<string>): Option<seq<string>> {
    if ts == [] then Some([])
    else if ts[0] == "" then ParseOrder(ts[1..])
    else if |ts| >= 2 && ts[0] == "ORDER" && ts[1] == "BY" then Some(ts[2..])
    else None
  }

  /** What follows WHERE. */
  function ParseWhere(text: string): Option<Where> {
    ParseConds(Text.SplitOn(Blanked(text), ' '))
  }

  /** Parameter p is bound to this text. */
  predicate Bound(p: nat, args: seq<Arg>, s: string) {
    1 <= p <= |args| && args[p - 1] == TextArg(s)
  }

  predicate Holds(c: Cond, args: seq<Arg>, r: Row) {
    match c
    case Equal(column, p) => column == "account_id" && Bound(p, args, r.credential.account)
    case IsNull(column) => column == "deleted_at" && r.deletedAt.None?
    case In(column, ps) => column == "credential_type" && exists i :: 0 <= i < |ps| && Bound(ps[i], args, r.credential.kind)
  }

  predicate Selects(text: string, args: seq<Arg>, r: Row) {
    match ParseWhere(text)
    case None => false
    case Some(w) => forall i | 0 <= i < |w.conds| :: Holds(w.conds[i], args, r)
  }

  const ACCOUNT_TEXT := "account_id = $1 AND"
  const LIVE_TEXT := "deleted_at IS NULL AND"
  const TYPE_TEXT := "credential_type IN"
  const ORDER_TEXT := "primary_credential DESC, created_at ASC"

  function BeforeList(): string {
    ACCOUNT_TEXT + " " + (LIVE_TEXT + " " + (TYPE_TEXT + " " + "("))
  }

  function AfterList(): string {
    ")" + "\n\t" + ("ORDER BY" + " " + ORDER_TEXT)
  }

  const NEWEST_PRIMARY_FIRST := ["primary_credential", "DESC,", "created_at", "ASC"]

  function InList(n: nat): string {
    Text.Join(Words(1, n), ',')
  }

  function TypesWhere(n: nat): string {
    BeforeList() + InList(n) + AfterList()
  }

  function TypeArgs(account: string, kinds: seq<string>): (r: seq<Arg>)
    ensures |r| == |kinds| + 1 && r[0] == TextArg(account) && forall i | 0 <= i < |kinds| :: r[i + 1] == TextArg(kinds[i])
  {
    [TextArg(account)] + seq(|kinds|, i requires 0 <= i < |kinds| => TextArg(kinds[i]))
  }

  const ACCOUNT_WORDS := ["account_id", "=", "$1", "AND"]
  const LIVE_WORDS := ["deleted_at", "IS", "NULL", "AND"]
  const TYPE_WORDS := ["credential_type", "IN"]
  const ORDER_WORDS := ["", "ORDER", "BY"]

  function TypesWords(list: string): seq<string> {
    ACCOUNT_WORDS + (LIVE_WORDS + (TYPE_WORDS + (["(" + list + ")"] + (ORDER_WORDS + NEWEST_PRIMARY_FIRST))))
  }

  predicate NoBreak(s: string) {
    '\n' !in s && '\t' !in s
  }

  lemma BlankedPlain(s: string)
    requires NoBreak(s)
    ensures Blanked(s) == s
  {
  }

  lemma BlankedConcat(a: string, b: string)
    ensures Blanked(a + b) == Blanked(a) + Blanked(b)
  {
  }

  lemma BlankedJoin(parts: seq<string>)
    requires forall i | 0 <= i < |parts| :: NoBreak(parts[i])
    ensures Blanked(Text.Join(parts, ' ')) == Text.Join(parts, ' ')
  {
    hide Text.Join, Blanked;
    JoinPlain(parts, ' ', '\n');
    JoinPlain(parts, ' ', '\t');
    BlankedPlain(Text.Join(parts, ' '));
  }

  lemma AccountText()
    ensures Text.Join(ACCOUNT_WORDS, ' ') == ACCOUNT_TEXT == Blanked(ACCOUNT_TEXT)
  {
    hide Text.Join, Blanked;
    Text.JoinFour("account_id", "=", "$1", "AND");
    BlankedJoin(ACCOUNT_WORDS);
  }

  lemma LiveText()
    ensures Text.Join(LIVE_WORDS, ' ') == LIVE_TEXT == Blanked(LIVE_TEXT)
  {
    hide Text.Join, Blanked;
    Text.JoinFour("deleted_at", "IS", "NULL", "AND");
    BlankedJoin(LIVE_WORDS);
  }

  lemma JoinTwo(a: string, b: string)
    ensures Text.Join([a, b], ' ') == a + " " + b
  {
    assert [a, b][1..] == [b];
  }

  lemma TypeText()
    ensures Text.Join(TYPE_WORDS, ' ') == TYPE_TEXT == Blanked(TYPE_TEXT)
  {
    hide Text.Join, Blanked;
    JoinTwo("credential_type", "IN");
    BlankedJoin(TYPE_WORDS);
  }

  lemma OrderText()
    ensures Text.Join(NEWEST_PRIMARY_FIRST, ' ') == ORDER_TEXT == Blanked(ORDER_TEXT)
  {
    hide Text.Join, Blanked;
    Text.JoinFour("primary_credential", "DESC,", "created_at", "ASC");
    assert "primary_credential" + " " + "DESC," + " " + "created_at" + " " + "ASC" == ORDER_TEXT;
    BlankedJoin(NEWEST_PRIMARY_FIRST);
  }

  lemma OrderWordsText()
    ensures Text.Join(ORDER_WORDS, ' ') == " " + "ORDER BY"
    ensures Blanked("ORDER BY") == "ORDER BY" && Blanked("\n\t") == "  " && Blanked(" ") == " "
  {
    assert ORDER_WORDS[1..] == ["ORDER", "BY"];
    JoinTwo("ORDER", "BY");
  }

  /** Blanked, each side of the list is its words. */
  lemma SidesBlanked()
    ensures Blanked(BeforeList())
         == Text.Join(ACCOUNT_WORDS, ' ') + " " + (Text.Join(LIVE_WORDS, ' ') + " " + (Text.Join(TYPE_WORDS, ' ') + " " + "("))
    ensures Blanked(AfterList()) == ")" + "  " + ("ORDER BY" + " " + Text.Join(NEWEST_PRIMARY_FIRST, ' '))
  {
    AccountText();
    LiveText();
    TypeText();
    OrderText();
    OrderWordsText();
    assert Blanked("(") == "(" && Blanked(")") == ")";
    hide Text.Join, Blanked;
    var account, live, kind, order := ACCOUNT_TEXT, LIVE_TEXT, TYPE_TEXT, ORDER_TEXT;
    BlankedConcat(account + " ", live + " " + (kind + " " + "("));
    BlankedConcat(account, " ");
    BlankedConcat(live + " ", kind + " " + "(");
    BlankedConcat(live, " ");
    BlankedConcat(kind + " ", "(");
    BlankedConcat(kind, " ");
    BlankedConcat(")" + "\n\t", "ORDER BY" + " " + order);
    BlankedConcat(")", "\n\t");
    BlankedConcat("ORDER BY" + " ", order);
    BlankedConcat("ORDER BY", " ");
  }

  lemma WordsJoined(list: string)
    ensures Text.Join(TypesWords(list), ' ')
         == Text.Join(ACCOUNT_WORDS, ' ') + " " + (Text.Join(LIVE_WORDS, ' ') + " " + (Text.Join(TYPE_WORDS, ' ') + " "
            + (("(" + list + ")") + " " + (" " + "ORDER BY" + " " + Text.Join(NEWEST_PRIMARY_FIRST, ' ')))))
  {
    OrderWordsText();
    var item := "(" + list + ")";
    var order := ORDER_WORDS + NEWEST_PRIMARY_FIRST;
    assert Text.Join([item], ' ') == item;
    hide Text.Join, Blanked;
    Text.JoinAppend(ORDER_WORDS, NEWEST_PRIMARY_FIRST, ' ');
    Text.JoinAppend([item], order, ' ');
    Text.JoinAppend(TYPE_WORDS, [item] + order, ' ');
    Text.JoinAppend(LIVE_WORDS, TYPE_WORDS + ([item] + order), ' ');
    Text.JoinAppend(ACCOUNT_WORDS, LIVE_WORDS + (TYPE_WORDS + ([item] + order)), ' ');
  }

  lemma Regroup(a: string, b: string, c: string, list: string, o: string)
    ensures (a + " " + (b + " " + (c + " " + "("))) + list + (")" + "  " + ("ORDER BY" + " " + o))
         == a + " " + (b + " " + (c + " " + (("(" + list + ")") + " " + (" " + "ORDER BY" + " " + o))))
  {
    assert "  " == " " + " ";
  }

  /** The text is its words, whatever the list. */
  lemma TypesTextJoins(list: string)
    requires NoBreak(list)
    ensures Blanked(BeforeList() + list + AfterList()) == Text.Join(TypesWords(list), ' ')
  {
    hide Text.Join, TypesWords, BeforeList, AfterList, Blanked;
    WordsJoined(list);
    SidesBlanked();
    BlankedPlain(list);
    BlankedConcat(BeforeList(), list);
    BlankedConcat(BeforeList() + list, AfterList());
    Regroup(Text.Join(ACCOUNT_WORDS, ' '), Text.Join(LIVE_WORDS, ' '), Text.Join(TYPE_WORDS, ' '), list, Text.Join(NEWEST_PRIMARY_FIRST, ' '));
  }

  lemma WordsSplit(list: string)
    requires ' ' !in list
    ensures Text.SplitOn(Text.Join(TypesWords(list), ' '), ' ') == TypesWords(list)
  {
    hide Text.Join, Text.SplitOn;
    Text.SplitJoin(TypesWords(list), ' ');
  }

  lemma OrderParses()
    ensures ParseOrder(ORDER_WORDS + NEWEST_PRIMARY_FIRST) == Some(NEWEST_PRIMARY_FIRST)
  {
    var ts := ORDER_WORDS + NEWEST_PRIMARY_FIRST;
    assert ts[1..][2..] == NEWEST_PRIMARY_FIRST;
  }

  /** A list of placeholders holds nothing that separates words. */
  lemma ListPlain(n: nat)
    ensures ' ' !in InList(n) && NoBreak(InList(n))
  {
    forall j | 0 <= j < n ensures ' ' !in Words(1, n)[j] && '\n' !in Words(1, n)[j] && '\t' !in Words(1, n)[j] {
      ParamNoBack(j + 2);
      hide Placeholder;
    }
    hide Words;
    JoinPlain(Words(1, n), ',', ' ');
    JoinPlain(Words(1, n), ',', '\n');
    JoinPlain(Words(1, n), ',', '\t');
  }

  lemma InListParses(n: nat)
    requires n > 0
    ensures ParseList("(" + InList(n) + ")") == Some(Numbers(1, n))
    ensures ' ' !in InList(n) && NoBreak(InList(n))
  {
    WordsPlain(1, n);
    ParamsOfWords(1, n);
    ListPlain(n);
    hide Words, Params, Text.Join;
    Text.SplitJoin(Words(1, n), ',');
    var s := "(" + InList(n) + ")";
    assert s[1..|s| - 1] == InList(n);
  }

  lemma FirstParam()
    ensures ParamNo("$1") == Some(1)
  {
    assert "$1"[1..] == "1" && "1"[..0] == "" && "1"[1..] == "";
  }

  /** The words parse to the three conditions and the order. */
  lemma WordsParse(list: string, ps: seq<nat>)
    requires ParseList("(" + list + ")") == Some(ps)
    ensures ParseConds(TypesWords(list)) ==
              Some(Where([Equal("account_id", 1), IsNull("deleted_at"), In("credential_type", ps)], NEWEST_PRIMARY_FIRST))
  {
    hide ParseList, ParamNo;
    FirstParam();
    OrderParses();
    hide ParseOrder;
    var item := "(" + list + ")";
    var order := ORDER_WORDS + NEWEST_PRIMARY_FIRST;
    var third := TYPE_WORDS + ([item] + order);
    var second := LIVE_WORDS + third;
    var first := ACCOUNT_WORDS + second;
    assert third[3..] == order && third[3] == "";
    assert ParseConds(third) == Some(Where([In("credential_type", ps)], NEWEST_PRIMARY_FIRST));
    assert second[4..] == third;
    assert ParseConds(second) == Some(Where([IsNull("deleted_at")] + [In("credential_type", ps)], NEWEST_PRIMARY_FIRST));
    assert first[4..] == second;
    assert [Equal("account_id", 1)] + ([IsNull("deleted_at")] + [In("credential_type", ps)])
        == [Equal("account_id", 1), IsNull("deleted_at"), In("credential_type", ps)];
  }

  /** The whole condition, parsed: the account, live rows, the types' placeholders, and the order. */
  lemma WhereParses(n: nat)
    requires n > 0
    ensures ParseWhere(TypesWhere(n)) ==
              Some(Where([Equal("account_id", 1), IsNull("deleted_at"), In("credential_type", Numbers(1, n))], NEWEST_PRIMARY_FIRST))
  {
    hide InList, ParseList, ParseConds, Numbers, Text.Join, Text.SplitOn, TypesWords, Blanked;
    InListParses(n);
    TypesTextJoins(InList(n));
    WordsSplit(InList(n));
    WordsParse(InList(n), Numbers(1, n));
  }

  lemma TypeArgAt(account: string, kinds: seq<string>, i: nat, kind: string)
    requires i < |kinds|
    ensures Bound(Numbers(1, |kinds|)[i], TypeArgs(account, kinds), kind) <==> kinds[i] == kind
  {
  }

  /** The query selects the live credentials of the account that have one of the types asked for. */
  lemma TypesSelect(account: string, kinds: seq<string>, r: Row)
    requires kinds != []
    ensures Selects(TypesWhere(|kinds|), TypeArgs(account, kinds), r)
       <==> r.credential.account == account && r.deletedAt.None? && r.credential.kind in kinds
  {
    WhereParses(|kinds|);
    hide TypesWhere, ParseWhere;
    var args := TypeArgs(account, kinds);
    forall i: nat | i < |kinds| ensures Bound(Numbers(1, |kinds|)[i], args, r.credential.kind) <==> kinds[i] == r.credential.kind {
      TypeArgAt(account, kinds, i, r.credential.kind);
    }
    hide Numbers;
    var conds := [Equal("account_id", 1), IsNull("deleted_at"), In("credential_type", Numbers(1, |kinds|))];
    assert Holds(conds[0], args, r) <==> r.credential.account == account;
    assert Holds(conds[1], args, r) <==> r.deletedAt.None?;
    assert Holds(conds[2], args, r) <==> r.credential.kind in kinds;
  }

  /** The loop of FindByAccountAndTypes; without types nothing is asked.  text is what follows WHERE. */
  method FindByAccountAndTypes(account: string, kinds: seq<string>) returns (asked: bool, text: string, args: seq<Arg>)
    ensures asked <==> kinds != []
    ensures asked ==> args == TypeArgs(account, kinds)
    ensures asked ==> ParseWhere(text).Some? && ParseWhere(text).value.order == NEWEST_PRIMARY_FIRST
    ensures asked ==> forall r :: Selects(text, args, r) <==>
                        r.credential.account == account && r.deletedAt.None? && r.credential.kind in kinds
  {
    if kinds == [] { return false, "", []; }
    hide Selects, Placeholder, ListSoFar, TypeArgs, BeforeList, AfterList, ParseWhere, TypesWhere;
    asked, text, args := true, BeforeList(), [TextArg(account)];
    TypeArgsStart(account, kinds);
    ListStart(text);
    for i := 0 to |kinds|
      invariant text == BeforeList() + ListSoFar(i) && args == TypeArgs(account, kinds[..i])
    {
      ListStep(BeforeList(), i);
      TypeArgsStep(account, kinds, i);
      if i > 0 { text := text + [',']; }
      text := text + Placeholder(i + 2);
      args := args + [TextArg(kinds[i])];
    }
    text := text + AfterList();
    assert kinds[..|kinds|] == kinds;
    WholeText(|kinds|);
    WhereParses(|kinds|);
    forall r ensures Selects(text, args, r) <==> r.credential.account == account && r.deletedAt.None? && r.credential.kind in kinds {
      TypesSelect(account, kinds, r);
    }
  }

  /** The list after i turns of the loop. */
  function ListSoFar(i: nat): string {
    if i == 0 then "" else InList(i)
  }

  lemma ListStart(text: string)
    ensures text == text + ListSoFar(0)
  {
  }

  lemma ListStep(text: string, i: nat)
    ensures (if i > 0 then text + ListSoFar(i) + [','] else text + ListSoFar(i)) + Placeholder(i + 2) == text + ListSoFar(i + 1)
  {
    hide Placeholder;
    if i > 0 {
      assert Words(1, i + 1) == Words(1, i) + [Placeholder(i + 2)];
      Text.JoinAppend(Words(1, i), [Placeholder(i + 2)], ',');
      assert ListSoFar(i + 1) == InList(i) + [','] + Placeholder(i + 2);
      hide ListSoFar;
    } else {
      assert Words(1, 1) == [Placeholder(2)];
    }
  }

  lemma WholeText(n: nat)
    requires n > 0
    ensures BeforeList() + ListSoFar(n) + AfterList() == TypesWhere(n)
  {
    hide BeforeList, AfterList, InList;
  }

  lemma TypeArgsStart(account: string, kinds: seq<string>)
    ensures TypeArgs(account, kinds[..0]) == [TextArg(account)]
  {
  }

  lemma TypeArgsStep(account: string, kinds: seq<string>, i: nat)
    requires i < |kinds|
    ensures TypeArgs(account, kinds[..i + 1]) == TypeArgs(account, kinds[..i]) + [TextArg(kinds[i])]
  {
  }
}
