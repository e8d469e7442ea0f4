/**
 * Canonical JSON for credentials (internal/crypto/vc.go:136-206; objects as in section 4 of RFC 8259).
 * A tree lists an object's members in whatever order the map iteration produced them.
 */
module CanonicalJson {

  /** `Atom` is the token of a number, true, false or null. */
  datatype Tree =
    | Atom(token: string)
    | Str(text: string)
    | Arr(items: seq<Tree>)
    | Obj(members: seq<Member>)

  datatype Member = Member(key: string, value: Tree)

  const STRUCTURAL: set<char> := {',', ':', '[', ']', '{', '}', '"'}

  predicate IsToken(token: string) {
    token != "" && forall c | c in token :: c !in STRUCTURAL
  }

  predicate DistinctKeys(members: seq<Member>) {
    forall i, j | 0 <= i < j < |members| :: members[i].key != members[j].key
  }

  predicate WellFormed(t: Tree) {
    match t
    case Atom(token) => IsToken(token)
    case Str(_) => true
    case Arr(items) => forall i | 0 <= i < |items| :: WellFormed(items[i])
    case Obj(members) => DistinctKeys(members) && forall i | 0 <= i < |members| :: WellFormed(members[i].value)
  }

  // ---- Byte order of keys ----

  predicate Less(a: string, b: string) {
    b != "" && (a == "" || a[0] < b[0] || (a[0] == b[0] && Less(a[1..], b[1..])))
  }

  /** Before in byte order: a proper prefix, or smaller at the first difference. */
  ghost predicate Before(a: string, b: string) {
    || (|a| < |b| && a == b[..|a|])
    || (exists i :: 0 <= i < |a| && i < |b| && a[..i] == b[..i] && a[i] < b[i])
  }

  lemma BeforeStarts(a: string, b: string)
    requires Before(a, b) && a != ""
    ensures b != "" && a[0] <= b[0]
  {
    if |a| < |b| && a == b[..|a|] {
      assert a[0] == b[0];
    } else {
      var i :| 0 <= i < |a| && i < |b| && a[..i] == b[..i] && a[i] < b[i];
      assert i > 0 ==> a[..i][0] == b[..i][0];
    }
  }

  lemma BeforeWithHead(c: char, x: string, y: string)
    requires Before(x, y)
    ensures Before([c] + x, [c] + y)
  {
    var a, b := [c] + x, [c] + y;
    if |x| < |y| && x == y[..|x|] {
      assert a == b[..|a|];
    } else {
      var i :| 0 <= i < |x| && i < |y| && x[..i] == y[..i] && x[i] < y[i];
      assert a[..i + 1] == [c] + x[..i] && b[..i + 1] == [c] + y[..i];
      assert a[i + 1] < b[i + 1];
    }
  }

  lemma BeforeWithoutHead(c: char, x: string, y: string)
    requires Before([c] + x, [c] + y)
    ensures Before(x, y)
  {
    var a, b := [c] + x, [c] + y;
    if |a| < |b| && a == b[..|a|] {
      assert x == a[1..] && y[..|x|] == b[..|a|][1..];
    } else {
      var i :| 0 <= i < |a| && i < |b| && a[..i] == b[..i] && a[i] < b[i];
      assert x[..i - 1] == a[..i][1..] && y[..i - 1] == b[..i][1..];
      assert x[i - 1] < y[i - 1];
    }
  }

  lemma {:induction false} LessIsByteOrder(a: string, b: string)
    ensures Less(a, b) <==> Before(a, b)
  {
    if a == "" {
      assert b[..|a|] == a;
    } else if b != "" && a[0] == b[0] {
      var x, y := a[1..], b[1..];
      assert a == [a[0]] + x && b == [a[0]] + y;
      LessIsByteOrder(x, y);
      hide Before;
      if Before(x, y) {
        BeforeWithHead(a[0], x, y);
      }
      if Before(a, b) {
        BeforeWithoutHead(a[0], x, y);
      }
    } else if b != "" {
      if Before(a, b) {
        BeforeStarts(a, b);
      }
      assert a[..0] == b[..0];
    }
  }

  lemma {:induction false} LessTotal(a: string, b: string)
    ensures a == b || Less(a, b) || Less(b, a)
    ensures !(Less(a, b) && Less(b, a))
    ensures Less(a, b) ==> a != b
  {
    if a != "" && b != "" {
      LessTotal(a[1..], b[1..]);
      assert a == [a[0]] + a[1..] && b == [b[0]] + b[1..];
    }
  }

  lemma {:induction false} LessTransitive(a: string, b: string, c: string)
    requires Less(a, b) && Less(b, c)
    ensures Less(a, c)
  {
    if a != "" && a[0] == b[0] == c[0] {
      LessTransitive(a[1..], b[1..], c[1..]);
    }
  }

  /** Strictly ascending, stated on neighbours of the head. */
  predicate Ascending(keys: seq<string>) {
    |keys| > 1 ==> Less(keys[0], keys[1]) && Ascending(keys[1..])
  }

  lemma {:induction false} HeadIsLeast(keys: seq<string>, k: string)
    requires Ascending(keys) && keys != [] && k in keys
    ensures k == keys[0] || Less(keys[0], k)
  {
    if |keys| > 1 && k != keys[0] {
      assert k in keys[1..];
      HeadIsLeast(keys[1..], k);
      if k != keys[1] {
        LessTransitive(keys[0], keys[1], k);
      }
    }
  }

  /** An ascending list is determined by its elements: this is why the iteration order cannot show. */
  lemma {:induction false} AscendingUnique(xs: seq<string>, ys: seq<string>)
    requires Ascending(xs) && Ascending(ys)
    requires forall k :: k in xs <==> k in ys
    ensures xs == ys
  {
    assert (xs != [] ==> xs[0] in xs) && (ys != [] ==> ys[0] in ys);
    if xs != [] && ys != [] {
      HeadIsLeast(xs, ys[0]);
      HeadIsLeast(ys, xs[0]);
      LessTotal(xs[0], ys[0]);
      assert xs == [xs[0]] + xs[1..] && ys == [ys[0]] + ys[1..];
      forall k ensures k in xs[1..] <==> k in ys[1..] {
        TailElements(xs, k);
        TailElements(ys, k);
      }
      AscendingUnique(xs[1..], ys[1..]);
    }
  }

  lemma TailElements(keys: seq<string>, k: string)
    requires Ascending(keys) && keys != []
    ensures k in keys[1..] <==> k in keys && k != keys[0]
  {
    if k in keys[1..] {
      HeadIsLeast(keys[1..], k);
      if k != keys[1] {
        LessTransitive(keys[0], keys[1], k);
      }
      LessTotal(keys[0], k);
    }
  }

  // ---- Sorting ----

  function Insert(k: string, keys: seq<string>): seq<string> {
    if keys == [] || Less(k, keys[0]) then [k] + keys else [keys[0]] + Insert(k, keys[1..])
  }

  function SortStrings(keys: seq<string>): seq<string> {
    if keys == [] then [] else Insert(keys[0], SortStrings(keys[1..]))
  }

  lemma {:induction false} InsertAscending(k: string, keys: seq<string>)
    requires Ascending(keys) && k !in keys
    ensures Ascending(Insert(k, keys))
    ensures forall x :: x in Insert(k, keys) <==> x == k || x in keys
  {
    if keys != [] && !Less(k, keys[0]) {
      InsertAscending(k, keys[1..]);
      LessTotal(k, keys[0]);
      assert keys == [keys[0]] + keys[1..];
      var rest := Insert(k, keys[1..]);
      assert Insert(k, keys)[1..] == rest;
    } else {
      assert ([k] + keys)[1..] == keys;
    }
  }

  lemma {:induction false} SortAscending(keys: seq<string>)
    requires forall i, j | 0 <= i < j < |keys| :: keys[i] != keys[j]
    ensures Ascending(SortStrings(keys))
    ensures forall x :: x in SortStrings(keys) <==> x in keys
  {
    if keys != [] {
      SortAscending(keys[1..]);
      assert keys == [keys[0]] + keys[1..];
      InsertAscending(keys[0], SortStrings(keys[1..]));
    }
  }

  function Keys(members: seq<Member>): (keys: seq<string>)
    ensures |keys| == |members| && forall i | 0 <= i < |keys| :: keys[i] == members[i].key
  {
    seq(|members|, i requires 0 <= i < |members| => members[i].key)
  }

  predicate Has(members: seq<Member>, key: string) {
    exists i :: 0 <= i < |members| && members[i].key == key
  }

  /** The value of a key, as the map gives it. */
  function Lookup(members: seq<Member>, key: string): (t: Tree)
    requires Has(members, key)
    ensures exists i :: 0 <= i < |members| && members[i].key == key && members[i].value == t
  {
    if members[0].key == key then members[0].value else Lookup(members[1..], key)
  }

  function Sorted(t: Tree): Tree
    decreases t, 0
  {
    match t
    case Atom(_) => t
    case Str(_) => t
    case Arr(items) => Arr(seq(|items|, i requires 0 <= i < |items| => Sorted(items[i])))
    case Obj(members) => Obj(Entries(SortStrings(Keys(members)), members))
  }

  function Entries(keys: seq<string>, members: seq<Member>): (entries: seq<Member>)
    ensures |entries| == |keys| && forall i | 0 <= i < |keys| :: entries[i].key == keys[i]
    decreases members, |keys|
  {
    if keys == [] then []
    else
      var value := if Has(members, keys[0]) then Sorted(Lookup(members, keys[0])) else Atom("null");
      [Member(keys[0], value)] + Entries(keys[1..], members)
  }

  // ---- Printing ----

  const HEX := "0123456789abcdef"

  /** The last k hexadecimal digits. */
  function Hex(n: nat, k: nat): (digits: string)
    ensures |digits| == k
  {
    if k == 0 then "" else Hex(n / 16, k - 1) + [HEX[n % 16]]
  }

  /** The escapes of encoding/json, HTML-sensitive characters and line separators included. */
  function EscapeChar(c: char): string {
    if c == '"' then "\\\""
    else if c == '\\' then "\\\\"
    else if c == '\n' then "\\n"
    else if c == '\r' then "\\r"
    else if c == '\t' then "\\t"
    else if c as int == 8 then "\\b"
    else if c as int == 12 then "\\f"
    else if c as int < 0x20 || c in {'<', '>', '&'} || c as int == 0x2028 || c as int == 0x2029
    then "\\u" + Hex(c as int, 4)
    else [c]
  }

  /** Which of its escapes a character gets: the two-character ones where there is one in use, no more than needed. */
  lemma EscapesExactly(c: char)
    ensures |EscapeChar(c)| == 2 <==> c in {'"', '\\', '\n', '\r', '\t', 8 as char, 12 as char}
    ensures |EscapeChar(c)| == 1 <==>
              || (c as int >= 0x20 && c !in {'"', '\\', '<', '>', '&', 0x2028 as char, 0x2029 as char})
    ensures |EscapeChar(c)| == 1 ==> EscapeChar(c) == [c]
    ensures |EscapeChar(c)| > 2 ==> EscapeChar(c) == "\\u" + Hex(c as int, 4)
  {
  }

  /** The rest of a string token after its opening quote. */
  function EscapeRest(s: string): string {
    if s == "" then "\"" else EscapeChar(s[0]) + EscapeRest(s[1..])
  }

  function Quote(s: string): string {
    "\"" + EscapeRest(s)
  }

  /** Printed strings hold no control characters, nothing that HTML would take for markup, and no line separators. */
  lemma {:induction false} QuotedIsSafe(s: string, c: char)
    requires c in Quote(s)
    ensures c as int >= 0x20 && c !in {'<', '>', '&'} && c as int != 0x2028 && c as int != 0x2029
  {
    if s != "" {
      if c in EscapeChar(s[0]) {
        EscapeIsSafe(s[0], c);
      } else {
        assert c in Quote(s[1..]);
        QuotedIsSafe(s[1..], c);
      }
    }
  }

  lemma EscapeIsSafe(c: char, d: char)
    requires d in EscapeChar(c)
    ensures d as int >= 0x20 && d !in {'<', '>', '&'} && d as int != 0x2028 && d as int != 0x2029
  {
    if d in Hex(c as int, 4) {
      HexIsPlain(c as int, 4, d);
    }
  }

  lemma {:induction false} HexIsPlain(n: nat, k: nat, d: char)
    requires d in Hex(n, k)
    ensures d in HEX
  {
    if k > 0 && d in Hex(n / 16, k - 1) {
      HexIsPlain(n / 16, k - 1, d);
    }
  }

  function Print(t: Tree): string
    decreases t, 0
  {
    match t
    case Atom(token) => token
    case Str(text) => Quote(text)
    case Arr(items) => "[" + ArrBody(items)
    case Obj(members) => "{" + ObjBody(members)
  }

  function ArrBody(items: seq<Tree>): string
    decreases items, 2
  {
    if items == [] then "]" else Print(items[0]) + PrintItems(items[1..])
  }

  function ObjBody(members: seq<Member>): string
    decreases members, 2
  {
    if members == [] then "}" else PrintMember(members[0]) + PrintMembers(members[1..])
  }

  function PrintItems(items: seq<Tree>): string
    decreases items, 1
  {
    if items == [] then "]" else "," + Print(items[0]) + PrintItems(items[1..])
  }

  function PrintMember(m: Member): string
    decreases m, 1
  {
    Quote(m.key) + ":" + Print(m.value)
  }

  function PrintMembers(members: seq<Member>): string
    decreases members, 1
  {
    if members == [] then "}" else "," + PrintMember(members[0]) + PrintMembers(members[1..])
  }

  function Canonical(t: Tree): string {
    Print(Sorted(t))
  }

  // ---- Printed text can be taken apart again ----

  /** What can follow a value: nothing, or a delimiter. */
  predicate Delimited(rest: string) {
    rest == "" || rest[0] in {',', ']', '}'}
  }

  lemma Split(a: string, b: string, c: string, d: string)
    requires a + b == c + d && |a| == |c|
    ensures a == c && b == d
  {
    assert (a + b)[..|a|] == a && (c + d)[..|c|] == c;
    assert (a + b)[|a|..] == b && (c + d)[|c|..] == d;
  }

  lemma Peel(open: string, x: string, y: string, r: string, r': string)
    requires (open + x) + r == (open + y) + r'
    ensures x + r == y + r'
  {
    assert (open + x) + r == open + (x + r) && (open + y) + r' == open + (y + r');
    Split(open, x + r, open, y + r');
  }

  lemma HexDigitUnique(m: nat, n: nat)
    requires m < 16 && n < 16 && HEX[m] == HEX[n]
    ensures m == n
  {
  }

  function Pow16(k: nat): nat {
    if k == 0 then 1 else 16 * Pow16(k - 1)
  }

  lemma {:induction false} HexUnique(m: nat, n: nat, k: nat)
    requires m < Pow16(k) && n < Pow16(k) && Hex(m, k) == Hex(n, k)
    ensures m == n
  {
    if k > 0 {
      var x, y := Hex(m, k), Hex(n, k);
      assert x[..k - 1] == Hex(m / 16, k - 1) && y[..k - 1] == Hex(n / 16, k - 1);
      assert x[k - 1] == HEX[m % 16] && y[k - 1] == HEX[n % 16];
      HexDigitUnique(m % 16, n % 16);
      HexUnique(m / 16, n / 16, k - 1);
    }
  }

  /** Escapes are a prefix code, and none begins with the closing quote. */
  lemma EscapeCharUnique(c: char, d: char, r: string, r': string)
    requires EscapeChar(c) + r == EscapeChar(d) + r'
    ensures c == d && r == r'
  {
    var x, y := EscapeChar(c), EscapeChar(d);
    var whole := x + r;
    assert whole[0] == x[0] && whole[0] == y[0];
    if |x| > 1 {
      assert whole[1] == x[1] && whole[1] == y[1];
    }
    assert |x| == |y|;
    Split(x, r, y, r');
    if |x| == 6 {
      assert x[2..] == Hex(c as int, 4) && y[2..] == Hex(d as int, 4);
      assert Pow16(4) == 0x1_0000;
      HexUnique(c as int, d as int, 4);
    }
  }

  lemma {:induction false} QuoteUnique(s: string, t: string, r: string, r': string)
    requires EscapeRest(s) + r == EscapeRest(t) + r'
    ensures s == t && r == r'
  {
    RestStarts(s, r);
    RestStarts(t, r');
    hide EscapeChar;
    if s == "" {
      Split("\"", r, "\"", r');
    } else {
      assert EscapeRest(s) + r == EscapeChar(s[0]) + (EscapeRest(s[1..]) + r);
      assert EscapeRest(t) + r' == EscapeChar(t[0]) + (EscapeRest(t[1..]) + r');
      EscapeCharUnique(s[0], t[0], EscapeRest(s[1..]) + r, EscapeRest(t[1..]) + r');
      QuoteUnique(s[1..], t[1..], r, r');
      assert s == [s[0]] + s[1..] && t == [t[0]] + t[1..];
    }
  }

  /** A closing quote comes first exactly when nothing is left of the string. */
  lemma RestStarts(s: string, r: string)
    ensures var whole := EscapeRest(s) + r;
            whole != "" && (whole[0] == '"' <==> s == "")
  {
    if s != "" {
      assert EscapeRest(s)[0] == EscapeChar(s[0])[0];
    }
  }

  // First characters decide what is being read.

  lemma PrintStarts(t: Tree, r: string)
    requires WellFormed(t)
    ensures var whole := Print(t) + r;
            && whole != ""
            && whole[0] !in {',', ']', '}', ':'}
            && (whole[0] == '"' <==> t.Str?) && (whole[0] == '[' <==> t.Arr?) && (whole[0] == '{' <==> t.Obj?)
  {
    assert (Print(t) + r)[0] == Print(t)[0];
    if t.Atom? {
      assert t.token[0] in t.token;
    }
  }

  /** How many characters come before the first structural one. */
  function Lead(s: string): nat {
    if s == "" || s[0] in STRUCTURAL then 0 else 1 + Lead(s[1..])
  }

  lemma {:induction false} LeadOfToken(token: string, r: string)
    requires forall c | c in token :: c !in STRUCTURAL
    requires Delimited(r)
    ensures Lead(token + r) == |token|
  {
    if token == "" {
      assert token + r == r;
    } else {
      assert (token + r)[1..] == token[1..] + r;
      LeadOfToken(token[1..], r);
    }
  }

  lemma AtomUnique(a: string, b: string, r: string, r': string)
    requires IsToken(a) && IsToken(b) && Delimited(r) && Delimited(r') && a + r == b + r'
    ensures a == b && r == r'
  {
    LeadOfToken(a, r);
    LeadOfToken(b, r');
    Split(a, r, b, r');
  }

  /** Printing is injective on ordered trees, and what follows a value is found again. */
  lemma {:induction false} PrintUnique(a: Tree, b: Tree, r: string, r': string)
    requires WellFormed(a) && WellFormed(b) && Delimited(r) && Delimited(r')
    requires Print(a) + r == Print(b) + r'
    ensures a == b && r == r'
    decreases a, 2
  {
    PrintStarts(a, r);
    PrintStarts(b, r');
    hide ArrBody, ObjBody, Quote;
    match a
    case Atom(token) => AtomUnique(token, b.token, r, r');
    case Str(text) =>
      Unquote(text, b.text, r, r');
    case Arr(items) =>
      Peel("[", ArrBody(items), ArrBody(b.items), r, r');
      ArrBodyUnique(items, b.items, r, r');
    case Obj(members) =>
      Peel("{", ObjBody(members), ObjBody(b.members), r, r');
      ObjBodyUnique(members, b.members, r, r');
  }

  lemma Unquote(s: string, t: string, r: string, r': string)
    requires Quote(s) + r == Quote(t) + r'
    ensures s == t && r == r'
  {
    hide EscapeRest;
    Peel("\"", EscapeRest(s), EscapeRest(t), r, r');
    QuoteUnique(s, t, r, r');
  }

  predicate AllWellFormed(items: seq<Tree>) {
    forall i | 0 <= i < |items| :: WellFormed(items[i])
  }

  predicate ValuesWellFormed(members: seq<Member>) {
    forall i | 0 <= i < |members| :: WellFormed(members[i].value)
  }

  lemma {:induction false} ArrBodyUnique(xs: seq<Tree>, ys: seq<Tree>, r: string, r': string)
    requires AllWellFormed(xs) && AllWellFormed(ys)
    requires ArrBody(xs) + r == ArrBody(ys) + r'
    ensures xs == ys && r == r'
    decreases xs, 1
  {
    ArrBodyStarts(xs, r);
    ArrBodyStarts(ys, r');
    hide Print, PrintItems;
    if xs == [] {
      Split("]", r, "]", r');
    } else {
      assert ArrBody(xs) + r == Print(xs[0]) + (PrintItems(xs[1..]) + r);
      assert ArrBody(ys) + r' == Print(ys[0]) + (PrintItems(ys[1..]) + r');
      ItemsStart(xs[1..], r);
      ItemsStart(ys[1..], r');
      PrintUnique(xs[0], ys[0], PrintItems(xs[1..]) + r, PrintItems(ys[1..]) + r');
      ItemsUnique(xs[1..], ys[1..], r, r');
      assert xs == [xs[0]] + xs[1..] && ys == [ys[0]] + ys[1..];
    }
  }

  lemma ArrBodyStarts(xs: seq<Tree>, r: string)
    requires AllWellFormed(xs)
    ensures ArrBody(xs) + r != "" && ((ArrBody(xs) + r)[0] == ']' <==> xs == [])
  {
    if xs != [] {
      PrintStarts(xs[0], "");
      assert (ArrBody(xs) + r)[0] == Print(xs[0])[0];
    }
  }

  lemma ItemsStart(xs: seq<Tree>, r: string)
    ensures Delimited(PrintItems(xs) + r) && PrintItems(xs) + r != ""
    ensures (PrintItems(xs) + r)[0] == ']' <==> xs == []
  {
  }

  lemma {:induction false} ItemsUnique(xs: seq<Tree>, ys: seq<Tree>, r: string, r': string)
    requires AllWellFormed(xs) && AllWellFormed(ys)
    requires PrintItems(xs) + r == PrintItems(ys) + r'
    ensures xs == ys && r == r'
    decreases xs, 1
  {
    ItemsStart(xs, r);
    ItemsStart(ys, r');
    hide Print;
    if xs == [] {
      Split("]", r, "]", r');
    } else {
      var p, q := Print(xs[0]) + (PrintItems(xs[1..]) + r), Print(ys[0]) + (PrintItems(ys[1..]) + r');
      assert PrintItems(xs) + r == "," + p && PrintItems(ys) + r' == "," + q;
      hide PrintItems;
      Split(",", p, ",", q);
      ItemsStart(xs[1..], r);
      ItemsStart(ys[1..], r');
      PrintUnique(xs[0], ys[0], PrintItems(xs[1..]) + r, PrintItems(ys[1..]) + r');
      ItemsUnique(xs[1..], ys[1..], r, r');
      assert xs == [xs[0]] + xs[1..] && ys == [ys[0]] + ys[1..];
    }
  }

  lemma {:induction false} MemberUnique(m: Member, n: Member, r: string, r': string)
    requires WellFormed(m.value) && WellFormed(n.value) && Delimited(r) && Delimited(r')
    requires PrintMember(m) + r == PrintMember(n) + r'
    ensures m == n && r == r'
    decreases m, 3
  {
    hide Quote, Print, WellFormed;
    assert PrintMember(m) + r == Quote(m.key) + (":" + (Print(m.value) + r));
    assert PrintMember(n) + r' == Quote(n.key) + (":" + (Print(n.value) + r'));
    Unquote(m.key, n.key, ":" + (Print(m.value) + r), ":" + (Print(n.value) + r'));
    Split(":", Print(m.value) + r, ":", Print(n.value) + r');
    PrintUnique(m.value, n.value, r, r');
  }

  lemma {:induction false} ObjBodyUnique(xs: seq<Member>, ys: seq<Member>, r: string, r': string)
    requires ValuesWellFormed(xs) && ValuesWellFormed(ys)
    requires ObjBody(xs) + r == ObjBody(ys) + r'
    ensures xs == ys && r == r'
    decreases xs, 1
  {
    ObjBodyStarts(xs, r);
    ObjBodyStarts(ys, r');
    hide PrintMember, PrintMembers;
    if xs == [] {
      Split("}", r, "}", r');
    } else {
      assert ObjBody(xs) + r == PrintMember(xs[0]) + (PrintMembers(xs[1..]) + r);
      assert ObjBody(ys) + r' == PrintMember(ys[0]) + (PrintMembers(ys[1..]) + r');
      MembersStart(xs[1..], r);
      MembersStart(ys[1..], r');
      MemberUnique(xs[0], ys[0], PrintMembers(xs[1..]) + r, PrintMembers(ys[1..]) + r');
      MembersUnique(xs[1..], ys[1..], r, r');
      assert xs == [xs[0]] + xs[1..] && ys == [ys[0]] + ys[1..];
    }
  }

  lemma ObjBodyStarts(xs: seq<Member>, r: string)
    ensures ObjBody(xs) + r != "" && ((ObjBody(xs) + r)[0] == '}' <==> xs == [])
  {
  }

  lemma MembersStart(xs: seq<Member>, r: string)
    ensures Delimited(PrintMembers(xs) + r) && PrintMembers(xs) + r != ""
    ensures (PrintMembers(xs) + r)[0] == '}' <==> xs == []
  {
  }

  lemma {:induction false} MembersUnique(xs: seq<Member>, ys: seq<Member>, r: string, r': string)
    requires ValuesWellFormed(xs) && ValuesWellFormed(ys)
    requires PrintMembers(xs) + r == PrintMembers(ys) + r'
    ensures xs == ys && r == r'
    decreases xs, 1
  {
    MembersStart(xs, r);
    MembersStart(ys, r');
    hide PrintMember;
    if xs == [] {
      Split("}", r, "}", r');
    } else {
      var p, q := PrintMember(xs[0]) + (PrintMembers(xs[1..]) + r), PrintMember(ys[0]) + (PrintMembers(ys[1..]) + r');
      assert PrintMembers(xs) + r == "," + p && PrintMembers(ys) + r' == "," + q;
      hide PrintMembers;
      Split(",", p, ",", q);
      MembersStart(xs[1..], r);
      MembersStart(ys[1..], r');
      MemberUnique(xs[0], ys[0], PrintMembers(xs[1..]) + r, PrintMembers(ys[1..]) + r');
      MembersUnique(xs[1..], ys[1..], r, r');
      assert xs == [xs[0]] + xs[1..] && ys == [ys[0]] + ys[1..];
    }
  }

  // ---- Equality up to member order ----

  ghost predicate Same(a: Tree, b: Tree)
    decreases a
  {
    match (a, b)
    case (Arr(xs), Arr(ys)) => |xs| == |ys| && forall i | 0 <= i < |xs| :: Same(xs[i], ys[i])
    case (Obj(xs), Obj(ys)) =>
      && (forall k :: Has(xs, k) <==> Has(ys, k))
      && (forall i | 0 <= i < |xs| :: Has(ys, xs[i].key) && Same(xs[i].value, Lookup(ys, xs[i].key)))
    case _ => a == b
  }

  ghost predicate KeysSorted(t: Tree) {
    match t
    case Arr(items) => forall i | 0 <= i < |items| :: KeysSorted(items[i])
    case Obj(members) => Ascending(Keys(members)) && forall i | 0 <= i < |members| :: KeysSorted(members[i].value)
    case _ => true
  }

  lemma {:induction false} LookupAt(members: seq<Member>, i: nat)
    requires DistinctKeys(members) && i < |members|
    ensures Has(members, members[i].key) && Lookup(members, members[i].key) == members[i].value
  {
    if i > 0 {
      LookupAt(members[1..], i - 1);
    }
  }

  lemma HasInKeys(members: seq<Member>, k: string)
    ensures Has(members, k) <==> k in Keys(members)
  {
    if Has(members, k) {
      var i :| 0 <= i < |members| && members[i].key == k;
      assert Keys(members)[i] == k;
    }
  }

  lemma {:induction false} EntryAt(keys: seq<string>, members: seq<Member>, i: nat)
    requires i < |keys| && Has(members, keys[i])
    ensures Entries(keys, members)[i] == Member(keys[i], Sorted(Lookup(members, keys[i])))
  {
    if i > 0 {
      EntryAt(keys[1..], members, i - 1);
    }
  }

  lemma EntryOf(keys: seq<string>, members: seq<Member>, i: nat) returns (j: nat)
    requires DistinctKeys(members) && i < |keys| && Has(members, keys[i])
    ensures j < |members| && members[j].key == keys[i] && Lookup(members, keys[i]) == members[j].value
    ensures Entries(keys, members)[i] == Member(keys[i], Sorted(members[j].value))
  {
    EntryAt(keys, members, i);
    j :| 0 <= j < |members| && members[j].key == keys[i];
    LookupAt(members, j);
  }

  /** The sorted keys of an object: ascending, and the same keys. */
  lemma SortedKeys(members: seq<Member>)
    requires DistinctKeys(members)
    ensures Ascending(SortStrings(Keys(members)))
    ensures forall k :: k in SortStrings(Keys(members)) <==> Has(members, k)
  {
    SortAscending(Keys(members));
    forall k ensures k in SortStrings(Keys(members)) <==> Has(members, k) {
      HasInKeys(members, k);
    }
  }

  lemma {:induction false} SameIffSorted(a: Tree, b: Tree)
    requires WellFormed(a) && WellFormed(b)
    ensures Same(a, b) <==> Sorted(a) == Sorted(b)
    decreases a, 1
  {
    match (a, b)
    case (Arr(xs), Arr(ys)) =>
      if |xs| == |ys| {
        forall i | 0 <= i < |xs| ensures Same(xs[i], ys[i]) <==> Sorted(xs[i]) == Sorted(ys[i]) {
          SameIffSorted(xs[i], ys[i]);
        }
        var sa, sb := Sorted(a).items, Sorted(b).items;
        assert sa == sb ==> forall i | 0 <= i < |xs| :: Sorted(xs[i]) == sa[i] == sb[i] == Sorted(ys[i]);
      } else {
        assert |Sorted(a).items| == |xs| && |Sorted(b).items| == |ys|;
      }
    case (Obj(xs), Obj(ys)) =>
      SortedKeys(xs);
      SortedKeys(ys);
      if Same(a, b) {
        SameSorts(xs, ys);
      }
      if Sorted(a) == Sorted(b) {
        SortsSame(xs, ys);
      }
    case _ =>
  }

  lemma {:induction false} SameSorts(xs: seq<Member>, ys: seq<Member>)
    requires WellFormed(Obj(xs)) && WellFormed(Obj(ys)) && Same(Obj(xs), Obj(ys))
    ensures Sorted(Obj(xs)) == Sorted(Obj(ys))
    decreases xs, 0
  {
    SortedKeys(xs);
    SortedKeys(ys);
    var keys := SortStrings(Keys(xs));
    AscendingUnique(keys, SortStrings(Keys(ys)));
    forall i | 0 <= i < |keys| ensures Entries(keys, xs)[i] == Entries(keys, ys)[i] {
      assert keys[i] in keys;
      var j := EntryOf(keys, xs, i);
      var k := EntryOf(keys, ys, i);
      SameIffSorted(xs[j].value, ys[k].value);
    }
    hide Entries, SortStrings, Ascending;
  }

  lemma {:induction false} SortsSame(xs: seq<Member>, ys: seq<Member>)
    requires WellFormed(Obj(xs)) && WellFormed(Obj(ys)) && Sorted(Obj(xs)) == Sorted(Obj(ys))
    ensures Same(Obj(xs), Obj(ys))
    decreases xs, 0
  {
    SortedKeys(xs);
    SortedKeys(ys);
    var keys := SortStrings(Keys(xs));
    var entries := Sorted(Obj(xs)).members;
    assert keys == SortStrings(Keys(ys)) by {
      assert forall i | 0 <= i < |keys| :: entries[i].key == keys[i];
    }
    hide Entries, SortStrings, Ascending;
    forall j | 0 <= j < |xs| ensures Has(ys, xs[j].key) && Same(xs[j].value, Lookup(ys, xs[j].key)) {
      assert Has(xs, xs[j].key) && xs[j].key in keys;
      var i :| 0 <= i < |keys| && keys[i] == xs[j].key;
      var j' := EntryOf(keys, xs, i);
      var k := EntryOf(keys, ys, i);
      assert j' == j;
      SameIffSorted(xs[j].value, ys[k].value);
    }
  }

  lemma {:induction false} AscendingDistinct(keys: seq<string>, i: nat, j: nat)
    requires Ascending(keys) && i < j < |keys|
    ensures keys[i] != keys[j]
    decreases i
  {
    if i == 0 {
      TailElements(keys, keys[j]);
      assert keys[j] == keys[1..][j - 1];
    } else {
      AscendingDistinct(keys[1..], i - 1, j - 1);
    }
  }

  /** Sorting keeps a tree well formed and leaves its keys strictly ascending at every depth. */
  lemma {:induction false} SortedShape(t: Tree)
    requires WellFormed(t)
    ensures WellFormed(Sorted(t)) && KeysSorted(Sorted(t))
  {
    match t
    case Arr(items) =>
      forall i | 0 <= i < |items| ensures WellFormed(Sorted(items[i])) && KeysSorted(Sorted(items[i])) {
        SortedShape(items[i]);
      }
    case Obj(members) =>
      SortedKeys(members);
      var keys := SortStrings(Keys(members));
      var entries := Entries(keys, members);
      assert Keys(entries) == keys;
      forall i | 0 <= i < |entries| ensures WellFormed(entries[i].value) && KeysSorted(entries[i].value) {
        assert keys[i] in keys;
        EntryAt(keys, members, i);
        var j :| 0 <= j < |members| && members[j].key == keys[i];
        LookupAt(members, j);
        SortedShape(members[j].value);
      }
      forall i, j | 0 <= i < j < |entries| ensures entries[i].key != entries[j].key {
        AscendingDistinct(keys, i, j);
      }
    case _ =>
  }

  /** At every depth, each member's key comes before every later one's in byte order. */
  ghost predicate ByteOrdered(t: Tree) {
    match t
    case Arr(items) => forall i | 0 <= i < |items| :: ByteOrdered(items[i])
    case Obj(members) =>
      && (forall i, j | 0 <= i < j < |members| :: Before(members[i].key, members[j].key))
      && forall i | 0 <= i < |members| :: ByteOrdered(members[i].value)
    case _ => true
  }

  lemma {:induction false} AscendingInByteOrder(keys: seq<string>, i: nat, j: nat)
    requires Ascending(keys) && i < j < |keys|
    ensures Before(keys[i], keys[j])
  {
    if i == 0 {
      assert keys[j] in keys;
      HeadIsLeast(keys, keys[j]);
      AscendingDistinct(keys, 0, j);
      LessIsByteOrder(keys[0], keys[j]);
    } else {
      AscendingInByteOrder(keys[1..], i - 1, j - 1);
    }
  }

  lemma {:induction false} KeysSortedInByteOrder(t: Tree)
    requires KeysSorted(t)
    ensures ByteOrdered(t)
  {
    match t
    case Arr(items) =>
      forall i | 0 <= i < |items| ensures ByteOrdered(items[i]) {
        KeysSortedInByteOrder(items[i]);
      }
    case Obj(members) =>
      forall i, j | 0 <= i < j < |members| ensures Before(members[i].key, members[j].key) {
        AscendingInByteOrder(Keys(members), i, j);
      }
      forall i | 0 <= i < |members| ensures ByteOrdered(members[i].value) {
        KeysSortedInByteOrder(members[i].value);
      }
    case _ =>
  }

  lemma {:induction false} SortedFixed(t: Tree)
    requires WellFormed(t) && KeysSorted(t)
    ensures Sorted(t) == t
  {
    match t
    case Arr(items) =>
      forall i | 0 <= i < |items| ensures Sorted(items[i]) == items[i] {
        SortedFixed(items[i]);
      }
    case Obj(members) =>
      SortedKeys(members);
      var keys := SortStrings(Keys(members));
      forall k ensures k in keys <==> k in Keys(members) {
        HasInKeys(members, k);
      }
      AscendingUnique(keys, Keys(members));
      forall i | 0 <= i < |members| ensures Entries(keys, members)[i] == members[i] {
        LookupAt(members, i);
        EntryAt(keys, members, i);
        SortedFixed(members[i].value);
      }
    case _ =>
  }

  /** Sorting reorders members and changes nothing else; the new order is byte order. */
  lemma SortedInByteOrder(t: Tree)
    requires WellFormed(t)
    ensures Same(Sorted(t), t) && ByteOrdered(Sorted(t))
  {
    SortedShape(t);
    SortedFixed(Sorted(t));
    SameIffSorted(Sorted(t), t);
    KeysSortedInByteOrder(Sorted(t));
  }

  // ---- What canonical JSON promises ----

  /** Two trees have the same canonical bytes exactly when they are equal up to object member order. */
  lemma CanonicalIffSame(a: Tree, b: Tree)
    requires WellFormed(a) && WellFormed(b)
    ensures Canonical(a) == Canonical(b) <==> Same(a, b)
  {
    SameIffSorted(a, b);
    SortedShape(a);
    SortedShape(b);
    if Canonical(a) == Canonical(b) {
      PrintUnique(Sorted(a), Sorted(b), "", "");
    }
  }

  /**
   * Re-canonicalising is the identity: a reader of canonical text sees exactly one tree, its keys strictly
   * ascending at every depth, and whatever order its maps are iterated in, the same bytes come out.
   */
  lemma {:induction false} CanonicalAgain(t: Tree, read: Tree, iterated: Tree)
    requires WellFormed(t) && WellFormed(read) && WellFormed(iterated)
    requires Print(read) == Canonical(t) && Same(iterated, read)
    ensures read == Sorted(t) && KeysSorted(read) && Same(read, t)
    ensures Canonical(iterated) == Canonical(t)
  {
    SortedShape(t);
    PrintUnique(read, Sorted(t), "", "");
    SortedFixed(read);
    SameIffSorted(read, t);
    SameIffSorted(iterated, read);
  }

  // ---- The loops ----

  method SortKeys(t: Tree) returns (r: Tree)
    requires WellFormed(t)
    ensures r == Sorted(t)
    ensures Same(r, t) && ByteOrdered(r)
    decreases t, 1
  {
    SortedInByteOrder(t);
    hide Same, ByteOrdered;
    match t {
      case Obj(members) => r := SortObject(members);
      case Arr(items) => r := SortArray(items);
      case _ => r := t;
    }
  }

  method SortArray(items: seq<Tree>) returns (r: Tree)
    requires WellFormed(Arr(items))
    ensures r == Sorted(Arr(items))
    decreases items, 2
  {
    var result := [];
    for i := 0 to |items|
      invariant |result| == i && forall j | 0 <= j < i :: result[j] == Sorted(items[j])
    {
      var value := SortKeys(items[i]);
      result := result + [value];
    }
    r := Arr(result);
  }

  /** The map's keys in iteration order, then sorted, then each looked up. */
  method SortObject(members: seq<Member>) returns (r: Tree)
    requires WellFormed(Obj(members))
    ensures r == Sorted(Obj(members))
    decreases members, 2
  {
    var keys := [];
    for i := 0 to |members|
      invariant keys == Keys(members)[..i]
    {
      keys := keys + [members[i].key];
    }
    assert Keys(members)[..|members|] == Keys(members);
    SortedKeys(members);
    keys := SortStrings(keys);
    hide Entries, SortStrings, Ascending, Has;
    assert forall i | 0 <= i < |keys| :: keys[i] in keys;
    var sorted := SortEntries(keys, members);
    r := Obj(sorted);
  }

  method SortEntries(keys: seq<string>, members: seq<Member>) returns (sorted: seq<Member>)
    requires ValuesWellFormed(members) && forall i | 0 <= i < |keys| :: Has(members, keys[i])
    ensures sorted == Entries(keys, members)
    decreases members, 1
  {
    hide Entries, Sorted, WellFormed;
    sorted := [];
    ghost var entries := Entries(keys, members);
    for i := 0 to |keys|
      invariant |sorted| == i && forall j | 0 <= j < i :: sorted[j] == entries[j]
    {
      EntryAt(keys, members, i);
      LookupWellFormed(members, keys[i]);
      var value := SortKeys(Lookup(members, keys[i]));
      sorted := sorted + [Member(keys[i], value)];
    }
  }

  lemma LookupWellFormed(members: seq<Member>, key: string)
    requires ValuesWellFormed(members) && Has(members, key)
    ensures WellFormed(Lookup(members, key))
  {
  }

  /** What the loops below have written before the i-th element. */
  function ItemsUpTo(items: seq<Tree>, i: nat): string
    requires i <= |items|
  {
    if i == 0 then "" else ItemsUpTo(items, i - 1) + (if i > 1 then "," else "") + Print(items[i - 1])
  }

  function MembersUpTo(members: seq<Member>, i: nat): string
    requires i <= |members|
  {
    if i == 0 then "" else MembersUpTo(members, i - 1) + (if i > 1 then "," else "") + PrintMember(members[i - 1])
  }

  lemma {:induction false} ItemsDone(items: seq<Tree>, i: nat)
    requires i <= |items|
    ensures ItemsUpTo(items, i) + (if i == 0 then ArrBody(items) else PrintItems(items[i..])) == ArrBody(items)
  {
    hide Print;
    if i > 0 {
      ItemsDone(items, i - 1);
      assert items[i - 1..][0] == items[i - 1] && items[i - 1..][1..] == items[i..];
    }
  }

  lemma {:induction false} MembersDone(members: seq<Member>, i: nat)
    requires i <= |members|
    ensures MembersUpTo(members, i) + (if i == 0 then ObjBody(members) else PrintMembers(members[i..])) ==
        ObjBody(members)
  {
    hide PrintMember;
    if i > 0 {
      MembersDone(members, i - 1);
      assert members[i - 1..][0] == members[i - 1] && members[i - 1..][1..] == members[i..];
    }
  }

  method MarshalJson(t: Tree) returns (s: string)
    ensures s == Print(t)
    decreases t, 1
  {
    match t {
      case Atom(token) => s := token;
      case Str(text) => s := Quote(text);
      case Arr(items) => s := MarshalArray(items);
      case Obj(members) => s := MarshalObject(members);
    }
  }

  method MarshalArray(items: seq<Tree>) returns (buf: string)
    ensures buf == Print(Arr(items))
    decreases items, 2
  {
    buf := "[";
    for i := 0 to |items|
      invariant buf == "[" + ItemsUpTo(items, i)
    {
      if i > 0 {
        buf := buf + ",";
      }
      var value := MarshalJson(items[i]);
      buf := buf + value;
    }
    ItemsDone(items, |items|);
    assert items[|items|..] == [];
    buf := buf + "]";
  }

  method MarshalObject(members: seq<Member>) returns (buf: string)
    ensures buf == Print(Obj(members))
    decreases members, 2
  {
    buf := "{";
    for i := 0 to |members|
      invariant buf == "{" + MembersUpTo(members, i)
    {
      hide Print, Quote;
      if i > 0 {
        buf := buf + ",";
      }
      var key := Quote(members[i].key);
      var value := MarshalJson(members[i].value);
      buf := buf + (key + ":" + value);
    }
    MembersDone(members, |members|);
    assert members[|members|..] == [];
    buf := buf + "}";
  }
}
