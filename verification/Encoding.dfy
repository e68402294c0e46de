/** The canonical text that ComputeEntryHash hashes (cmd/ledger-service/double_entry.go:228-241):
    "previousHash|sequence|txID|key|milliseconds|postings as JSON". The encoder is injective even though a
    key, an account or a currency may itself contain the separator. */
module Encoding {

  datatype Posting = Posting(accountId: string, accountType: string, direction: string, amount: int, currency: string)

  // ---- decimal numbers (%d) ----

  function Digit(d: nat): char
    requires d < 10
  {
    ('0' as int + d) as char
  }

  function DecNat(n: nat): string {
    if n < 10 then [Digit(n)] else DecNat(n / 10) + [Digit(n % 10)]
  }

  function Dec(n: int): string {
    if n < 0 then "-" + DecNat(-n) else DecNat(n)
  }

  predicate IsNumeral(s: string) {
    s != "" && forall i :: 0 <= i < |s| ==> '0' <= s[i] <= '9' || s[i] == '-'
  }

  lemma {:induction false} DecNatShape(n: nat)
    ensures DecNat(n) != "" && forall i :: 0 <= i < |DecNat(n)| ==> '0' <= DecNat(n)[i] <= '9'
  {
    if n >= 10 {
      DecNatShape(n / 10);
    }
  }

  lemma DecShape(n: int)
    ensures IsNumeral(Dec(n))
  {
    DecNatShape(if n < 0 then -n else n);
  }

  lemma {:induction false} DecNatInjective(a: nat, b: nat)
    requires DecNat(a) == DecNat(b)
    ensures a == b
  {
    var s, t := DecNat(a), DecNat(b);
    assert s[|s| - 1] == Digit(a % 10) && t[|t| - 1] == Digit(b % 10);
    DecNatShape(a / 10);
    DecNatShape(b / 10);
    if a >= 10 && b >= 10 {
      assert s[..|s| - 1] == DecNat(a / 10) && t[..|t| - 1] == DecNat(b / 10);
      DecNatInjective(a / 10, b / 10);
    }
  }

  lemma DecInjective(a: int, b: int)
    requires Dec(a) == Dec(b)
    ensures a == b
  {
    var na, nb := if a < 0 then -a else a, if b < 0 then -b else b;
    DecNatShape(na);
    DecNatShape(nb);
    assert Dec(a)[0] == '-' <==> a < 0;
    assert Dec(b)[0] == '-' <==> b < 0;
    if a < 0 {
      assert Dec(a)[1..] == DecNat(na) && Dec(b)[1..] == DecNat(nb);
    }
    DecNatInjective(na, nb);
  }

  // ---- cutting a text at a separator ----

  lemma Cancel(p: string, r: string, s: string)
    requires p + r == p + s
    ensures r == s
  {
    assert (p + r)[|p|..] == r && (p + s)[|p|..] == s;
  }

  lemma CutAt(p: string, r: string, q: string, s: string, c: char)
    requires p + r == q + s
    requires r != "" && s != "" && r[0] == c && s[0] == c && c !in p && c !in q
    ensures p == q && r == s
  {
    var w := p + r;
    assert w[|p|] == c && w[|q|] == c;
    assert forall i :: 0 <= i < |p| ==> w[i] == p[i];
    assert forall i :: 0 <= i < |q| ==> w[i] == q[i];
    assert p == (p + r)[..|p|] && q == (q + s)[..|q|];
    Cancel(p, r, s);
  }

  lemma CutNumeral(a: int, r: string, b: int, s: string, c: char)
    requires Dec(a) + r == Dec(b) + s
    requires r != "" && s != "" && r[0] == c && s[0] == c && !('0' <= c <= '9') && c != '-'
    ensures a == b && r == s
  {
    DecShape(a);
    DecShape(b);
    CutAt(Dec(a), r, Dec(b), s, c);
    DecInjective(a, b);
  }

  // ---- encoding/json strings; every encoder takes the text that follows ----

  function HexDigit(d: nat): char
    requires d < 16
  {
    if d < 10 then ('0' as int + d) as char else ('a' as int + d - 10) as char
  }

  function Hex4(n: nat): string
    requires n < 0x10000
  {
    var n1 := n / 16;
    var n2 := n1 / 16;
    [HexDigit(n2 / 16), HexDigit(n2 % 16), HexDigit(n1 % 16), HexDigit(n % 16)]
  }

  predicate HasUnicodeEscape(c: char) {
    c < ' ' || c == '<' || c == '>' || c == '&' || c == 0x2028 as char || c == 0x2029 as char
  }

  function EscapeChar(c: char): string {
    if c == '\"' || c == '\\' then ['\\', c]
    else if c == 8 as char then "\\b"
    else if c == 12 as char then "\\f"
    else if c == '\n' then "\\n"
    else if c == '\r' then "\\r"
    else if c == '\t' then "\\t"
    else if HasUnicodeEscape(c) then "\\u" + Hex4(c as int)
    else [c]
  }

  function Escape(s: string, rest: string): string {
    if s == "" then rest else EscapeChar(s[0]) + Escape(s[1..], rest)
  }

  function Quote(s: string, rest: string): string {
    "\"" + Escape(s, "\"" + rest)
  }

  function Field(name: string, rest: string): string {
    Quote(name, ":" + rest)
  }

  function AfterAmount(p: Posting, rest: string): string {
    "," + Field("currency", Quote(p.currency, "}" + rest))
  }

  function AfterDirection(p: Posting, rest: string): string {
    "," + Field("amount", Dec(p.amount) + AfterAmount(p, rest))
  }

  function AfterType(p: Posting, rest: string): string {
    "," + Field("direction", Quote(p.direction, AfterDirection(p, rest)))
  }

  function AfterId(p: Posting, rest: string): string {
    "," + Field("account_type", Quote(p.accountType, AfterType(p, rest)))
  }

  /** json.Marshal of one JournalPosting. */
  function Object(p: Posting, rest: string): string {
    "{" + Field("account_id", Quote(p.accountId, AfterId(p, rest)))
  }

  function Objects(ps: seq<Posting>, rest: string): string
    requires ps != []
  {
    Object(ps[0], if |ps| == 1 then rest else "," + Objects(ps[1..], rest))
  }

  function Json(ps: seq<Posting>): string {
    if ps == [] then "null" else "[" + Objects(ps, "]")
  }

  function Tail(key: string, ms: int, ps: seq<Posting>): string {
    key + ("|" + (Dec(ms) + ("|" + Json(ps))))
  }

  /** An argument of the canonical format string. */
  datatype Verb = Text(text: string) | Number(number: int) | Marshalled(postings: seq<Posting>)

  function Render(v: Verb): string {
    match v
    case Text(t) => t
    case Number(n) => Dec(n)
    case Marshalled(ps) => Json(ps)
  }

  /** fmt.Sprintf with the verbs separated by bars. */
  function Sprintf(vs: seq<Verb>): string {
    if vs == [] then "" else if |vs| == 1 then Render(vs[0]) else Render(vs[0]) + ("|" + Sprintf(vs[1..]))
  }

  function Canonical(previous: string, sequence: int, txId: string, key: string, ms: int, ps: seq<Posting>): string {
    Sprintf([Text(previous), Number(sequence), Text(txId), Text(key), Number(ms), Marshalled(ps)])
  }

  lemma SprintfCons(v: Verb, vs: seq<Verb>)
    requires vs != []
    ensures Sprintf([v] + vs) == Render(v) + ("|" + Sprintf(vs))
  {
    assert ([v] + vs)[1..] == vs;
  }

  lemma CanonicalShape(previous: string, sequence: int, txId: string, key: string, ms: int, ps: seq<Posting>)
    ensures Canonical(previous, sequence, txId, key, ms, ps) ==
            previous + ("|" + (Dec(sequence) + ("|" + (txId + ("|" + Tail(key, ms, ps))))))
  {
    var json := [Marshalled(ps)];
    SprintfCons(Number(ms), json);
    SprintfCons(Text(key), [Number(ms)] + json);
    SprintfCons(Text(txId), [Text(key)] + ([Number(ms)] + json));
    SprintfCons(Number(sequence), [Text(txId)] + ([Text(key)] + ([Number(ms)] + json)));
    SprintfCons(Text(previous), [Number(sequence)] + ([Text(txId)] + ([Text(key)] + ([Number(ms)] + json))));
    assert [Text(previous)] + ([Number(sequence)] + ([Text(txId)] + ([Text(key)] + ([Number(ms)] + json))))
        == [Text(previous), Number(sequence), Text(txId), Text(key), Number(ms), Marshalled(ps)];
  }

  // ---- JSON is injective ----

  lemma HexDigitInjective(d: nat, e: nat)
    requires d < 16 && e < 16 && HexDigit(d) == HexDigit(e)
    ensures d == e
  {
  }

  lemma Hex4Injective(a: nat, b: nat)
    requires a < 0x10000 && b < 0x10000 && Hex4(a) == Hex4(b)
    ensures a == b
  {
    var s, t := Hex4(a), Hex4(b);
    assert s[0] == t[0] && s[1] == t[1] && s[2] == t[2] && s[3] == t[3];
    var a1, b1 := a / 16, b / 16;
    var a2, b2 := a1 / 16, b1 / 16;
    HexDigitInjective(a2 / 16, b2 / 16);
    HexDigitInjective(a2 % 16, b2 % 16);
    HexDigitInjective(a1 % 16, b1 % 16);
    HexDigitInjective(a % 16, b % 16);
  }

  lemma EscapeCharPrefix(c: char, r: string, d: char, s: string)
    requires EscapeChar(c) + r == EscapeChar(d) + s
    ensures c == d && r == s
  {
    var x, y := EscapeChar(c), EscapeChar(d);
    assert (x + r)[0] == x[0] && (y + s)[0] == y[0];
    assert |x| > 1 ==> (x + r)[1] == x[1];
    assert |y| > 1 ==> (y + s)[1] == y[1];
    if |x| == 6 && |y| == 6 {
      assert x[2..] == Hex4(c as int) && y[2..] == Hex4(d as int);
      assert x == (x + r)[..6] && y == (y + s)[..6];
      Hex4Injective(c as int, d as int);
    }
    Cancel(x, r, s);
  }

  lemma EscapeHead(a: string, rest: string)
    ensures var e := Escape(a, "\"" + rest); e != "" && (e[0] == '\"' <==> a == "")
  {
    if a != "" {
      assert Escape(a, "\"" + rest)[0] == EscapeChar(a[0])[0];
    }
  }

  lemma {:induction false} EscapePrefix(a: string, r: string, b: string, s: string)
    requires Escape(a, "\"" + r) == Escape(b, "\"" + s)
    ensures a == b && r == s
  {
    EscapeHead(a, r);
    EscapeHead(b, s);
    if a == "" {
      Cancel("\"", r, s);
    } else {
      EscapeCharPrefix(a[0], Escape(a[1..], "\"" + r), b[0], Escape(b[1..], "\"" + s));
      EscapePrefix(a[1..], r, b[1..], s);
      assert a == [a[0]] + a[1..] && b == [b[0]] + b[1..];
    }
  }

  lemma QuotePrefix(a: string, r: string, b: string, s: string)
    requires Quote(a, r) == Quote(b, s)
    ensures a == b && r == s
  {
    Cancel("\"", Escape(a, "\"" + r), Escape(b, "\"" + s));
    EscapePrefix(a, r, b, s);
  }

  lemma FieldPrefix(sep: string, name: string, r: string, s: string)
    requires sep + Field(name, r) == sep + Field(name, s)
    ensures r == s
  {
    Cancel(sep, Field(name, r), Field(name, s));
    QuotePrefix(name, ":" + r, name, ":" + s);
    Cancel(":", r, s);
  }

  lemma ObjectPrefix(p: Posting, r: string, q: Posting, s: string)
    requires Object(p, r) == Object(q, s)
    ensures p == q && r == s
  {
    FieldPrefix("{", "account_id", Quote(p.accountId, AfterId(p, r)), Quote(q.accountId, AfterId(q, s)));
    QuotePrefix(p.accountId, AfterId(p, r), q.accountId, AfterId(q, s));
    FieldPrefix(",", "account_type", Quote(p.accountType, AfterType(p, r)), Quote(q.accountType, AfterType(q, s)));
    QuotePrefix(p.accountType, AfterType(p, r), q.accountType, AfterType(q, s));
    FieldPrefix(",", "direction", Quote(p.direction, AfterDirection(p, r)), Quote(q.direction, AfterDirection(q, s)));
    QuotePrefix(p.direction, AfterDirection(p, r), q.direction, AfterDirection(q, s));
    FieldPrefix(",", "amount", Dec(p.amount) + AfterAmount(p, r), Dec(q.amount) + AfterAmount(q, s));
    CutNumeral(p.amount, AfterAmount(p, r), q.amount, AfterAmount(q, s), ',');
    FieldPrefix(",", "currency", Quote(p.currency, "}" + r), Quote(q.currency, "}" + s));
    QuotePrefix(p.currency, "}" + r, q.currency, "}" + s);
    Cancel("}", r, s);
  }

  lemma {:induction false} ObjectsInjective(ps: seq<Posting>, qs: seq<Posting>)
    requires ps != [] && qs != [] && Objects(ps, "]") == Objects(qs, "]")
    ensures ps == qs
  {
    var r := if |ps| == 1 then "]" else "," + Objects(ps[1..], "]");
    var s := if |qs| == 1 then "]" else "," + Objects(qs[1..], "]");
    ObjectPrefix(ps[0], r, qs[0], s);
    assert r[0] == s[0];
    if |ps| > 1 {
      Cancel(",", Objects(ps[1..], "]"), Objects(qs[1..], "]"));
      ObjectsInjective(ps[1..], qs[1..]);
    }
    assert ps == [ps[0]] + ps[1..] && qs == [qs[0]] + qs[1..];
  }

  lemma JsonInjective(ps: seq<Posting>, qs: seq<Posting>)
    requires Json(ps) == Json(qs)
    ensures ps == qs
  {
    assert Json(ps)[0] == if ps == [] then 'n' else '[';
    assert Json(qs)[0] == if qs == [] then 'n' else '[';
    if ps != [] {
      Cancel("[", Objects(ps, "]"), Objects(qs, "]"));
      ObjectsInjective(ps, qs);
    }
  }

  // ---- a scanner: inside or outside a JSON string, and whether the next character is escaped ----

  datatype Scanner = Scanner(quoted: bool, escaped: bool)

  const OUT := Scanner(false, false)
  const IN := Scanner(true, false)

  function Next(st: Scanner, c: char): Scanner {
    if st.escaped then Scanner(st.quoted, false)
    else if c == '\\' then Scanner(st.quoted, true)
    else if c == '\"' then Scanner(!st.quoted, false)
    else st
  }

  function Scan(st: Scanner, s: string): Scanner
    decreases |s|
  {
    if s == "" then st else Scan(Next(st, s[0]), s[1..])
  }

  /** The separator occurs only inside JSON strings. */
  predicate BarsQuoted(st: Scanner, s: string)
    decreases |s|
  {
    s == "" || ((s[0] == '|' ==> st.quoted) && BarsQuoted(Next(st, s[0]), s[1..]))
  }

  lemma {:induction false} ScanConcat(st: Scanner, a: string, b: string)
    ensures Scan(st, a + b) == Scan(Scan(st, a), b)
    ensures BarsQuoted(st, a + b) == (BarsQuoted(st, a) && BarsQuoted(Scan(st, a), b))
    decreases |a|
  {
    if a == "" {
      assert a + b == b;
    } else {
      assert (a + b)[0] == a[0] && (a + b)[1..] == a[1..] + b;
      ScanConcat(Next(st, a[0]), a[1..], b);
    }
  }

  /** Quotes toggle, so a run begun inside a string mirrors one begun outside. */
  lemma {:induction false} ScanMirror(st: Scanner, s: string)
    ensures Scan(Scanner(!st.quoted, st.escaped), s) == var e := Scan(st, s); Scanner(!e.quoted, e.escaped)
    decreases |s|
  {
    if s != "" {
      ScanMirror(Next(st, s[0]), s[1..]);
    }
  }

  lemma {:induction false} ScanPlain(st: Scanner, s: string)
    requires !st.escaped && '\"' !in s && '\\' !in s
    requires st.quoted || '|' !in s
    ensures Scan(st, s) == st && BarsQuoted(st, s)
  {
    if s != "" {
      ScanPlain(st, s[1..]);
    }
  }

  lemma ScanEscapeChar(c: char)
    ensures Scan(IN, EscapeChar(c)) == IN && BarsQuoted(IN, EscapeChar(c))
  {
    var e := EscapeChar(c);
    if |e| == 1 {
      ScanPlain(IN, e);
    } else {
      assert Next(Next(IN, e[0]), e[1]) == IN;
      assert e[1..][1..] == e[2..];
      assert forall i :: 2 <= i < |e| ==> '0' <= e[i] <= 'f' && e[i] != '\\';
      ScanPlain(IN, e[2..]);
    }
  }

  ghost predicate Balanced(s: string) {
    Scan(OUT, s) == OUT && BarsQuoted(OUT, s)
  }

  lemma BalancedPlain(p: string, s: string)
    requires '\"' !in p && '\\' !in p && '|' !in p && Balanced(s)
    ensures Balanced(p + s)
  {
    ScanPlain(OUT, p);
    ScanConcat(OUT, p, s);
  }

  lemma {:induction false} ScanEscape(s: string, rest: string)
    ensures Scan(IN, Escape(s, rest)) == Scan(IN, rest)
    ensures BarsQuoted(IN, Escape(s, rest)) == BarsQuoted(IN, rest)
  {
    if s != "" {
      ScanEscapeChar(s[0]);
      ScanConcat(IN, EscapeChar(s[0]), Escape(s[1..], rest));
      ScanEscape(s[1..], rest);
    }
  }

  lemma BalancedQuote(s: string, rest: string)
    requires Balanced(rest)
    ensures Balanced(Quote(s, rest))
  {
    var q := "\"" + rest;
    assert q[0] == '\"' && q[1..] == rest;
    ScanEscape(s, q);
    var w := Quote(s, rest);
    assert w[0] == '\"' && w[1..] == Escape(s, q);
  }

  lemma BalancedField(sep: string, name: string, rest: string)
    requires sep == "," || sep == "{"
    requires Balanced(rest)
    ensures Balanced(sep + Field(name, rest))
  {
    BalancedPlain(":", rest);
    BalancedQuote(name, ":" + rest);
    BalancedPlain(sep, Field(name, rest));
  }

  lemma BalancedObject(p: Posting, rest: string)
    requires Balanced(rest)
    ensures Balanced(Object(p, rest))
  {
    BalancedPlain("}", rest);
    BalancedQuote(p.currency, "}" + rest);
    BalancedField(",", "currency", Quote(p.currency, "}" + rest));
    DecShape(p.amount);
    BalancedPlain(Dec(p.amount), AfterAmount(p, rest));
    BalancedField(",", "amount", Dec(p.amount) + AfterAmount(p, rest));
    BalancedQuote(p.direction, AfterDirection(p, rest));
    BalancedField(",", "direction", Quote(p.direction, AfterDirection(p, rest)));
    BalancedQuote(p.accountType, AfterType(p, rest));
    BalancedField(",", "account_type", Quote(p.accountType, AfterType(p, rest)));
    BalancedQuote(p.accountId, AfterId(p, rest));
    BalancedField("{", "account_id", Quote(p.accountId, AfterId(p, rest)));
  }

  lemma {:induction false} BalancedObjects(ps: seq<Posting>, rest: string)
    requires ps != [] && Balanced(rest)
    ensures Balanced(Objects(ps, rest))
  {
    if |ps| == 1 {
      BalancedObject(ps[0], rest);
    } else {
      BalancedObjects(ps[1..], rest);
      BalancedPlain(",", Objects(ps[1..], rest));
      BalancedObject(ps[0], "," + Objects(ps[1..], rest));
    }
  }

  lemma BalancedJson(ps: seq<Posting>)
    ensures Balanced(Json(ps))
  {
    ScanPlain(OUT, "null");
    if ps != [] {
      ScanPlain(OUT, "]");
      BalancedObjects(ps, "]");
      BalancedPlain("[", Objects(ps, "]"));
    }
  }

  /** No JSON text ends in a bar, a numeral, a bar and another JSON text: the middle bar would be quoted,
      and the second text would then end inside a string. */
  lemma NoJsonInsideJson(ps: seq<Posting>, q: string, ms: int, qs: seq<Posting>)
    ensures Json(ps) != q + ("|" + (Dec(ms) + ("|" + Json(qs))))
  {
    var n, j := Dec(ms), Json(qs);
    if Json(ps) == q + ("|" + (n + ("|" + j))) {
      BalancedJson(ps);
      BalancedJson(qs);
      ScanConcat(OUT, q, "|" + (n + ("|" + j)));
      var t := "|" + (n + ("|" + j));
      assert t[0] == '|' && t[1..] == n + ("|" + j);
      assert Next(Scan(OUT, q), '|') == IN;
      DecShape(ms);
      ScanPlain(IN, n);
      ScanConcat(IN, n, "|" + j);
      var u := "|" + j;
      assert u[0] == '|' && u[1..] == j;
      ScanMirror(OUT, j);
      assert false;
    }
  }

  lemma SecondBarIsInsideJson(n: string, j: string, o: nat, n': string, t: string)
    requires IsNumeral(n) && IsNumeral(n') && j != "" && (j[0] == 'n' || j[0] == '[')
    requires o < |n + ("|" + j)| && (n + ("|" + j))[o..] == "|" + (n' + t)
    ensures |n| < o && j[o - |n| - 1..] == "|" + (n' + t)
  {
    var v := n + ("|" + j);
    assert v[o..][0] == '|' && v[o..][1] == n'[0];
    assert v[o] == '|' && v[o + 1] == n'[0];
    assert forall i :: 0 <= i < |n| ==> v[i] == n[i];
    assert v[|n| + 1] == j[0];
    assert v[|n| + 1..] == j;
  }

  lemma LongerKeyImpossible(k: string, m: int, ps: seq<Posting>, k': string, m': int, ps': seq<Posting>)
    requires Tail(k, m, ps) == Tail(k', m', ps')
    ensures |k| >= |k'|
  {
    if |k| < |k'| {
      var w, n, j := Tail(k, m, ps), Dec(m), Json(ps);
      var o := |k'| - |k| - 1;
      DecShape(m);
      DecShape(m');
      assert w[|k| + 1..] == n + ("|" + j);
      assert w[|k'|..] == "|" + (Dec(m') + ("|" + Json(ps')));
      assert w[|k'|..] == w[|k| + 1..][o..];
      SecondBarIsInsideJson(n, j, o, Dec(m'), "|" + Json(ps'));
      var cut := o - |n| - 1;
      assert j == j[..cut] + j[cut..];
      NoJsonInsideJson(ps, j[..cut], m', ps');
      assert false;
    }
  }

  lemma TailInjective(k: string, m: int, ps: seq<Posting>, k': string, m': int, ps': seq<Posting>)
    requires Tail(k, m, ps) == Tail(k', m', ps')
    ensures k == k' && m == m' && ps == ps'
  {
    LongerKeyImpossible(k, m, ps, k', m', ps');
    LongerKeyImpossible(k', m', ps', k, m, ps);
    assert k == Tail(k, m, ps)[..|k|] && k' == Tail(k', m', ps')[..|k|];
    Cancel(k, "|" + (Dec(m) + ("|" + Json(ps))), "|" + (Dec(m') + ("|" + Json(ps'))));
    Cancel("|", Dec(m) + ("|" + Json(ps)), Dec(m') + ("|" + Json(ps')));
    CutNumeral(m, "|" + Json(ps), m', "|" + Json(ps'), '|');
    Cancel("|", Json(ps), Json(ps'));
    JsonInjective(ps, ps');
  }

  /** Equal canonical texts come from equal entries, for every key, account and currency text; only the
      previous hash and the transaction id, which are hexadecimal, are known to be free of the separator. */
  lemma CanonicalInjective(p: string, n: int, x: string, k: string, m: int, ps: seq<Posting>,
                           p': string, n': int, x': string, k': string, m': int, ps': seq<Posting>)
    requires '|' !in p && '|' !in p' && '|' !in x && '|' !in x'
    requires Canonical(p, n, x, k, m, ps) == Canonical(p', n', x', k', m', ps')
    ensures p == p' && n == n' && x == x' && k == k' && m == m' && ps == ps'
  {
    CanonicalShape(p, n, x, k, m, ps);
    CanonicalShape(p', n', x', k', m', ps');
    var t, t' := Tail(k, m, ps), Tail(k', m', ps');
    var c, c' := x + ("|" + t), x' + ("|" + t');
    var b, b' := Dec(n) + ("|" + c), Dec(n') + ("|" + c');
    CutAt(p, "|" + b, p', "|" + b', '|');
    Cancel("|", b, b');
    CutNumeral(n, "|" + c, n', "|" + c', '|');
    Cancel("|", c, c');
    CutAt(x, "|" + t, x', "|" + t', '|');
    Cancel("|", t, t');
    TailInjective(k, m, ps, k', m', ps');
  }

  // ---- the text of plain postings ----

  /** Nothing to escape. */
  predicate Plain(s: string) {
    forall i :: 0 <= i < |s| ==> ' ' <= s[i] <= '~' && s[i] !in ['"', '\\', '<', '>', '&']
  }

  lemma PlainChar(c: char)
    requires ' ' <= c <= '~' && c !in ['"', '\\', '<', '>', '&']
    ensures EscapeChar(c) == [c]
  {
  }

  lemma PlainFront(s: string)
    requires s != "" && Plain(s)
    ensures EscapeChar(s[0]) == [s[0]] && Plain(s[1..])
  {
    assert ' ' <= s[0] <= '~' && s[0] !in ['"', '\\', '<', '>', '&'];
    PlainChar(s[0]);
  }

  lemma {:induction false} EscapePlain(s: string, rest: string)
    requires Plain(s)
    ensures Escape(s, rest) == s + rest
  {
    hide EscapeChar, Plain;
    if s == "" {
      assert s + rest == rest;
    } else {
      PlainFront(s);
      EscapePlain(s[1..], rest);
      var head, tail := [s[0]], s[1..];
      assert Escape(s, rest) == head + (tail + rest);
      hide Escape;
      assert head + (tail + rest) == head + tail + rest && head + tail == s;
    }
  }

  function Member(name: string, value: string): string {
    "\"" + name + "\":\"" + value + "\""
  }

  lemma PlainMember(name: string, value: string, rest: string)
    requires Plain(name) && Plain(value)
    ensures Field(name, Quote(value, rest)) == Member(name, value) + rest
  {
    EscapePlain(value, "\"" + rest);
    EscapePlain(name, "\"" + (":" + Quote(value, rest)));
  }

  /** The five members of a posting, in order. */
  function PlainObject(p: Posting, rest: string): string {
    "{" + (Member("account_id", p.accountId) + ("," + (Member("account_type", p.accountType)
    + ("," + (Member("direction", p.direction) + ("," + ("\"amount\":" + (Dec(p.amount)
    + ("," + (Member("currency", p.currency) + ("}" + rest)))))))))))
  }

  lemma PlainPosting(p: Posting, rest: string)
    requires Plain(p.accountId) && Plain(p.accountType) && Plain(p.direction) && Plain(p.currency)
    ensures Object(p, rest) == PlainObject(p, rest)
  {
    hide Field, Quote, Member, Dec, Plain, Escape;
    PlainMemberNames();
    PlainMember("account_id", p.accountId, AfterId(p, rest));
    PlainMember("account_type", p.accountType, AfterType(p, rest));
    PlainMember("direction", p.direction, AfterDirection(p, rest));
    PlainMember("currency", p.currency, "}" + rest);
    AmountMember(p, rest);
  }

  lemma PlainMemberNames()
    ensures Plain("account_id") && Plain("account_type") && Plain("direction") && Plain("currency") && Plain("amount")
  {
  }

  lemma AmountMember(p: Posting, rest: string)
    ensures AfterDirection(p, rest) == "," + ("\"amount\":" + (Dec(p.amount) + AfterAmount(p, rest)))
  {
    hide Dec, AfterAmount;
    EscapePlain("amount", "\"" + (":" + (Dec(p.amount) + AfterAmount(p, rest))));
  }

  /** The JSON text of two plain postings; no postings at all are null. */
  lemma PlainJson(p: Posting, q: Posting)
    requires Plain(p.accountId) && Plain(p.accountType) && Plain(p.direction) && Plain(p.currency)
    requires Plain(q.accountId) && Plain(q.accountType) && Plain(q.direction) && Plain(q.currency)
    ensures Json([p, q]) == "[" + PlainObject(p, "," + PlainObject(q, "]"))
    ensures Json([]) == "null"
  {
    hide Object, PlainObject, Plain;
    PlainPosting(p, "," + PlainObject(q, "]"));
    PlainPosting(q, "]");
    assert [p, q][1..] == [q];
    assert Objects([q], "]") == Object(q, "]");
    assert Objects([p, q], "]") == Object(p, "," + Object(q, "]"));
  }
}
