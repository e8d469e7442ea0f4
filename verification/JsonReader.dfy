/**
 * A reader of JSON text without insignificant white space, written from sections 3 to 7 of RFC 8259 and independent of
 * the printer: it says what printed text means.
 */
module JsonReader {
  import opened CanonicalJson

  /** What was read, and the text after it. */
  datatype Read<T> = Malformed | Read(value: T, rest: string)

  function HexValue(c: char): int {
    if '0' <= c <= '9' then c as int - '0' as int
    else if 'a' <= c <= 'f' then c as int - 'a' as int + 10
    else if 'A' <= c <= 'F' then c as int - 'A' as int + 10
    else -1
  }

  /** The number written with hexadecimal digits, or -1. */
  function HexNumber(digits: string): (n: int)
    ensures n >= -1
  {
    if digits == "" then 0
    else
      var last := HexValue(digits[|digits| - 1]);
      var before := HexNumber(digits[..|digits| - 1]);
      if last < 0 || before < 0 then -1 else 16 * before + last
  }

  /** The character that a two-character escape stands for. */
  function EscapedBy(c: char): Read<char> {
    match c
    case '"' => Read('"', "")
    case '\\' => Read('\\', "")
    case '/' => Read('/', "")
    case 'b' => Read(8 as char, "")
    case 'f' => Read(12 as char, "")
    case 'n' => Read(10 as char, "")
    case 'r' => Read(13 as char, "")
    case 't' => Read(9 as char, "")
    case _ => Malformed
  }

  /** One character of a string, escaped or not; surrogate escapes are not read. */
  function ReadChar(s: string): (r: Read<char>)
    ensures r.Read? ==> |r.rest| < |s|
  {
    if s == "" || s[0] == '"' || s[0] as int < 0x20 then Malformed
    else if s[0] != '\\' then Read(s[0], s[1..])
    else if |s| < 2 then Malformed
    else if s[1] == 'u' then
      if |s| < 6 then Malformed
      else
        var n := HexNumber(s[2..6]);
        if 0 <= n < 0xD800 || 0xE000 <= n < 0x1_0000 then Read(n as char, s[6..]) else Malformed
    else if EscapedBy(s[1]).Read? then Read(EscapedBy(s[1]).value, s[2..])
    else Malformed
  }

  /** A string after its opening quote. */
  function ReadString(s: string): (r: Read<string>)
    ensures r.Read? ==> |r.rest| < |s|
    decreases |s|
  {
    if s != "" && s[0] == '"' then Read("", s[1..])
    else
      match ReadChar(s)
      case Malformed => Malformed
      case Read(c, rest) =>
        match ReadString(rest)
        case Malformed => Malformed
        case Read(text, rest') => Read([c] + text, rest')
  }

  function ReadValue(s: string): (r: Read<Tree>)
    ensures r.Read? ==> |r.rest| < |s|
    decreases |s|, 0
  {
    if s == "" then Malformed
    else if s[0] == '"' then
      match ReadString(s[1..])
      case Malformed => Malformed
      case Read(text, rest) => Read(Str(text), rest)
    else if s[0] == '[' then
      if |s| > 1 && s[1] == ']' then Read(Arr([]), s[2..])
      else
        match ReadItems(s[1..])
        case Malformed => Malformed
        case Read(items, rest) => Read(Arr(items), rest)
    else if s[0] == '{' then
      if |s| > 1 && s[1] == '}' then Read(Obj([]), s[2..])
      else
        match ReadMembers(s[1..])
        case Malformed => Malformed
        case Read(members, rest) => Read(Obj(members), rest)
    else if Lead(s) == 0 || Lead(s) > |s| then Malformed
    else Read(Atom(s[..Lead(s)]), s[Lead(s)..])
  }

  /** Values separated by commas, up to the closing bracket. */
  function ReadItems(s: string): (r: Read<seq<Tree>>)
    ensures r.Read? ==> |r.rest| < |s|
    decreases |s|, 1
  {
    match ReadValue(s)
    case Malformed => Malformed
    case Read(item, rest) =>
      if rest != "" && rest[0] == ']' then Read([item], rest[1..])
      else if rest != "" && rest[0] == ',' then
        match ReadItems(rest[1..])
        case Malformed => Malformed
        case Read(items, rest') => Read([item] + items, rest')
      else Malformed
  }

  function ReadMember(s: string): (r: Read<Member>)
    ensures r.Read? ==> |r.rest| < |s|
    decreases |s|, 1
  {
    if s == "" || s[0] != '"' then Malformed
    else
      match ReadString(s[1..])
      case Malformed => Malformed
      case Read(key, rest) =>
        if rest == "" || rest[0] != ':' then Malformed
        else
          match ReadValue(rest[1..])
          case Malformed => Malformed
          case Read(value, rest') => Read(Member(key, value), rest')
  }

  /** Members separated by commas, up to the closing brace. */
  function ReadMembers(s: string): (r: Read<seq<Member>>)
    ensures r.Read? ==> |r.rest| < |s|
    decreases |s|, 2
  {
    match ReadMember(s)
    case Malformed => Malformed
    case Read(member, rest) =>
      if rest != "" && rest[0] == '}' then Read([member], rest[1..])
      else if rest != "" && rest[0] == ',' then
        match ReadMembers(rest[1..])
        case Malformed => Malformed
        case Read(members, rest') => Read([member] + members, rest')
      else Malformed
  }

  // ---- The reader undoes the printer ----

  lemma {:induction false} HexReadBack(n: nat, k: nat)
    requires n < Pow16(k)
    ensures HexNumber(Hex(n, k)) == n
  {
    if k > 0 {
      HexReadBack(n / 16, k - 1);
      var digits := Hex(n, k);
      assert digits[..k - 1] == Hex(n / 16, k - 1) && digits[k - 1] == HEX[n % 16];
      DigitReadBack(n % 16);
    }
  }

  lemma DigitReadBack(n: nat)
    requires n < 16
    ensures HexValue(HEX[n]) == n
  {
  }

  lemma CharReadBack(c: char, rest: string)
    ensures ReadChar(EscapeChar(c) + rest) == Read(c, rest)
  {
    var s := EscapeChar(c) + rest;
    if EscapeChar(c) == "\\u" + Hex(c as int, 4) {
      var digits := Hex(c as int, 4);
      assert s[2..6] == digits && s[6..] == rest;
      assert Pow16(4) == 65536;
      HexReadBack(c as int, 4);
    } else if |EscapeChar(c)| == 2 {
      assert s[2..] == rest;
    } else {
      assert s[1..] == rest;
    }
  }

  /** A quoted string is read back as it was, whatever characters it has. */
  lemma {:induction false} StringReadBack(text: string, rest: string)
    ensures ReadString(EscapeRest(text) + rest) == Read(text, rest)
  {
    var s := EscapeRest(text) + rest;
    RestStarts(text, rest);
    if text == "" {
      assert s[1..] == rest;
    } else {
      var later := EscapeRest(text[1..]) + rest;
      assert s == EscapeChar(text[0]) + later;
      hide EscapeChar, ReadChar;
      CharReadBack(text[0], later);
      StringReadBack(text[1..], rest);
      assert [text[0]] + text[1..] == text;
    }
  }

  lemma ArrayReads(body: string, items: seq<Tree>, rest: string)
    requires if items == [] then body == "]" + rest
             else body != "" && body[0] != ']' && ReadItems(body) == Read(items, rest)
    ensures ReadValue("[" + body) == Read(Arr(items), rest)
  {
    var s := "[" + body;
    assert s[1..] == body;
    assert items == [] ==> s[2..] == rest;
    hide ReadItems;
  }

  lemma ObjectReads(body: string, members: seq<Member>, rest: string)
    requires if members == [] then body == "}" + rest
             else body != "" && body[0] != '}' && ReadMembers(body) == Read(members, rest)
    ensures ReadValue("{" + body) == Read(Obj(members), rest)
  {
    var s := "{" + body;
    assert s[1..] == body;
    assert members == [] ==> s[2..] == rest;
    hide ReadMembers;
  }

  lemma StringReads(text: string, rest: string)
    ensures ReadValue(Quote(text) + rest) == Read(Str(text), rest)
  {
    var s := Quote(text) + rest;
    assert s[0] == '"' && s[1..] == EscapeRest(text) + rest;
    StringReadBack(text, rest);
    hide ReadString, EscapeRest;
  }

  lemma AtomReads(token: string, rest: string)
    requires IsToken(token) && Delimited(rest)
    ensures ReadValue(token + rest) == Read(Atom(token), rest)
  {
    var s := token + rest;
    LeadOfToken(token, rest);
    assert s[0] == token[0] && token[0] in token;
    assert s[..|token|] == token && s[|token|..] == rest;
  }

  /** Every printed tree is read back as it was, member order included, and the text after it is left. */
  lemma {:induction false} ValueReadBack(t: Tree, rest: string)
    requires WellFormed(t) && Delimited(rest)
    ensures ReadValue(Print(t) + rest) == Read(t, rest)
    decreases t, 2
  {
    hide ReadValue, ReadItems, ReadMembers;
    match t
    case Atom(token) => AtomReads(token, rest);
    case Str(text) => StringReads(text, rest);
    case Arr(items) =>
      if items != [] {
        BodyStarts(items, rest);
        ItemsReadBack(items, rest);
      }
      ArrayReads(ArrBody(items) + rest, items, rest);
      hide ArrBody;
      assert Print(t) + rest == "[" + (ArrBody(items) + rest);
    case Obj(members) =>
      if members != [] {
        MemberBodyStarts(members, rest);
        MembersReadBack(members, rest);
      }
      ObjectReads(ObjBody(members) + rest, members, rest);
      hide ObjBody;
      assert Print(t) + rest == "{" + (ObjBody(members) + rest);
  }

  lemma MemberBodyStarts(members: seq<Member>, rest: string)
    requires members != []
    ensures ObjBody(members) + rest != "" && (ObjBody(members) + rest)[0] == '"'
  {
  }

  lemma BodyStarts(items: seq<Tree>, rest: string)
    requires items != [] && AllWellFormed(items)
    ensures ArrBody(items) + rest != "" && (ArrBody(items) + rest)[0] != ']'
  {
    PrintStarts(items[0], PrintItems(items[1..]) + rest);
    assert ArrBody(items) + rest == Print(items[0]) + (PrintItems(items[1..]) + rest);
  }

  lemma {:induction false} ItemsReadBack(items: seq<Tree>, rest: string)
    requires items != [] && AllWellFormed(items)
    ensures ReadItems(ArrBody(items) + rest) == Read(items, rest)
    decreases items, 1
  {
    hide Print, PrintItems, ArrBody, ReadValue, ReadItems;
    var after := PrintItems(items[1..]) + rest;
    ItemsSplit(items, rest);
    ValueReadBack(items[0], after);
    if |items| > 1 {
      ItemsReadBack(items[1..], rest);
    }
    ItemsRead(Print(items[0]) + after, items[0], after, items[1..], rest);
    assert [items[0]] + items[1..] == items;
  }

  lemma ItemsSplit(items: seq<Tree>, rest: string)
    requires items != []
    ensures var after := PrintItems(items[1..]) + rest;
            && ArrBody(items) + rest == Print(items[0]) + after
            && after != "" && Delimited(after)
            && if |items| == 1 then after[0] == ']' && after[1..] == rest
               else after[0] == ',' && after[1..] == ArrBody(items[1..]) + rest
  {
    hide Print, PrintItems, ArrBody;
    ArrayShape(items);
    var q := PrintItems(items[1..]);
    Regroup(Print(items[0]), q, rest);
    if |items| == 1 {
      HeadAndTail(q, ']', "", rest);
      assert "" + rest == rest;
    } else {
      HeadAndTail(q, ',', ArrBody(items[1..]), rest);
    }
  }

  lemma ArrayShape(items: seq<Tree>)
    requires items != []
    ensures ArrBody(items) == Print(items[0]) + PrintItems(items[1..])
    ensures PrintItems(items[1..]) == if |items| == 1 then "]" else "," + ArrBody(items[1..])
  {
    hide Print;
    if |items| > 1 {
      var rest := items[1..];
      Regroup(",", Print(rest[0]), PrintItems(rest[1..]));
    }
  }

  lemma ItemsRead(s: string, item: Tree, after: string, more: seq<Tree>, rest: string)
    requires ReadValue(s) == Read(item, after) && after != ""
    requires if more == [] then after[0] == ']' && after[1..] == rest
             else after[0] == ',' && ReadItems(after[1..]) == Read(more, rest)
    ensures ReadItems(s) == Read([item] + more, rest)
  {
    hide ReadValue;
    assert [item] + [] == [item];
  }

  lemma {:induction false} MembersReadBack(members: seq<Member>, rest: string)
    requires members != [] && ValuesWellFormed(members)
    ensures ReadMembers(ObjBody(members) + rest) == Read(members, rest)
    decreases members, 1
  {
    hide PrintMember, ReadMember, ReadMembers, Print, ObjBody, PrintMembers;
    var m, after := members[0], PrintMembers(members[1..]) + rest;
    MembersSplit(members, rest);
    MemberReadBack(m, after);
    if |members| > 1 {
      MembersReadBack(members[1..], rest);
    }
    MembersRead(PrintMember(m) + after, m, after, members[1..], rest);
    assert [m] + members[1..] == members;
  }

  lemma MembersSplit(members: seq<Member>, rest: string)
    requires members != []
    ensures var after := PrintMembers(members[1..]) + rest;
            && ObjBody(members) + rest == PrintMember(members[0]) + after
            && after != "" && Delimited(after)
            && if |members| == 1 then after[0] == '}' && after[1..] == rest
               else after[0] == ',' && after[1..] == ObjBody(members[1..]) + rest
  {
    hide PrintMember, PrintMembers, ObjBody;
    ObjectShape(members);
    var q := PrintMembers(members[1..]);
    Regroup(PrintMember(members[0]), q, rest);
    if |members| == 1 {
      HeadAndTail(q, '}', "", rest);
      assert "" + rest == rest;
    } else {
      HeadAndTail(q, ',', ObjBody(members[1..]), rest);
    }
  }

  lemma ObjectShape(members: seq<Member>)
    requires members != []
    ensures ObjBody(members) == PrintMember(members[0]) + PrintMembers(members[1..])
    ensures PrintMembers(members[1..]) == if |members| == 1 then "}" else "," + ObjBody(members[1..])
  {
    hide PrintMember;
    if |members| > 1 {
      var rest := members[1..];
      Regroup(",", PrintMember(rest[0]), PrintMembers(rest[1..]));
    }
  }

  lemma Regroup(a: string, b: string, c: string)
    ensures (a + b) + c == a + (b + c)
  {
  }

  lemma HeadAndTail(s: string, c: char, body: string, rest: string)
    requires s == [c] + body
    ensures s + rest != "" && (s + rest)[0] == c && (s + rest)[1..] == body + rest
  {
  }

  lemma MembersRead(s: string, m: Member, after: string, more: seq<Member>, rest: string)
    requires ReadMember(s) == Read(m, after) && after != ""
    requires if more == [] then after[0] == '}' && after[1..] == rest
             else after[0] == ',' && ReadMembers(after[1..]) == Read(more, rest)
    ensures ReadMembers(s) == Read([m] + more, rest)
  {
    hide ReadMember;
    assert [m] + [] == [m];
  }

  lemma {:induction false} MemberReadBack(m: Member, rest: string)
    requires WellFormed(m.value) && Delimited(rest)
    ensures ReadMember(PrintMember(m) + rest) == Read(m, rest)
    decreases m, 3
  {
    var s, after := PrintMember(m) + rest, ":" + (Print(m.value) + rest);
    assert s[1..] == EscapeRest(m.key) + after;
    assert after[1..] == Print(m.value) + rest;
    hide Print, ReadString, ReadValue, EscapeRest;
    StringReadBack(m.key, after);
    ValueReadBack(m.value, rest);
  }

  // ---- What canonical text means ----

  /**
   * Reading the canonical text of a tree gives a tree that equals it up to member order, with its keys in ascending
   * byte order at every depth.
   */
  lemma CanonicalReads(t: Tree)
    requires WellFormed(t)
    ensures ReadValue(Canonical(t)) == Read(Sorted(t), "")
    ensures Same(Sorted(t), t) && ByteOrdered(Sorted(t))
  {
    SortedShape(t);
    ValueReadBack(Sorted(t), "");
    assert Print(Sorted(t)) + "" == Print(Sorted(t));
    SortedInByteOrder(t);
  }
}
