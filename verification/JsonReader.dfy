/** A reader of JSON texts (RFC 8259), and that it reads back what the canonical writer writes. */
module JsonReader {
  import opened Basics
  import opened Bytes
  import opened CanonicalJson

  // ------------------------------------------------------------------ strings

  function HexValue(c: char): (n: Option<nat>)
    ensures n.Some? ==> n.value < 16
  {
    if '0' <= c <= '9' then Some(c as int - '0' as int)
    else if 'a' <= c <= 'f' then Some(c as int - 'a' as int + 10)
    else if 'A' <= c <= 'F' then Some(c as int - 'A' as int + 10)
    else None
  }

  /** What comes after a backslash (section 7 of RFC 8259); surrogate pairs are not read. */
  function ReadEscape(s: string): (r: Option<(char, string)>)
    ensures r.Some? ==> |r.value.1| < |s|
  {
    if s == "" then None
    else match s[0]
      case '"' => Some(('"', s[1..]))
      case '\\' => Some(('\\', s[1..]))
      case '/' => Some(('/', s[1..]))
      case 'b' => Some((8 as char, s[1..]))
      case 'f' => Some((12 as char, s[1..]))
      case 'n' => Some((10 as char, s[1..]))
      case 'r' => Some((13 as char, s[1..]))
      case 't' => Some((9 as char, s[1..]))
      case 'u' =>
        if |s| < 5 then None
        else
          var (a, b, c, d) := (HexValue(s[1]), HexValue(s[2]), HexValue(s[3]), HexValue(s[4]));
          if a.None? || b.None? || c.None? || d.None? then None
          else
            var n := ((a.value * 16 + b.value) * 16 + c.value) * 16 + d.value;
            if n < 0xD800 then Some((n as char, s[5..])) else None
      case _ => None
  }

  /** The characters up to the closing quote. */
  function ReadChars(s: string): (r: Option<(string, string)>)
    ensures r.Some? ==> |r.value.1| < |s|
    decreases |s|
  {
    if s == "" then None
    else if s[0] == '"' then Some(("", s[1..]))
    else if s[0] as int < 32 then None
    else
      var first := if s[0] == '\\' then ReadEscape(s[1..]) else Some((s[0], s[1..]));
      match first
      case None => None
      case Some((c, s1)) =>
        match ReadChars(s1)
        case None => None
        case Some((cs, s2)) => Some(([c] + cs, s2))
  }

  // ------------------------------------------------------------------- values

  function NumberSize(s: string): (n: nat)
    ensures n <= |s|
  {
    if s != "" && NumberChar(s[0]) then 1 + NumberSize(s[1..]) else 0
  }

  function ReadWord(s: string, word: string, t: Tree): Option<(Tree, string)> {
    if word <= s then Some((t, s[|word|..])) else None
  }

  /** The value s begins with, and what follows it. */
  function ReadValue(s: string): (r: Option<(Tree, string)>)
    ensures r.Some? ==> |r.value.1| < |s|
    decreases |s|, 1
  {
    if s == "" then None
    else if s[0] == '"' then
      match ReadChars(s[1..])
      case None => None
      case Some((cs, rest)) => Some((StringTree(cs), rest))
    else if s[0] == '[' then
      if |s| > 1 && s[1] == ']' then Some((ArrayTree([]), s[2..]))
      else
        match ReadItems(s[1..])
        case None => None
        case Some((ts, rest)) => Some((ArrayTree(ts), rest))
    else if s[0] == '{' then
      if |s| > 1 && s[1] == '}' then Some((ObjectTree(map[]), s[2..]))
      else
        match ReadMembers(s[1..])
        case None => None
        case Some((m, rest)) => Some((ObjectTree(m), rest))
    else if NumberChar(s[0]) && s[0] != 'e' && s[0] != 'E' && s[0] != '+' && s[0] != '.' then
      Some((NumberTree(s[..NumberSize(s)]), s[NumberSize(s)..]))
    else if s[0] == 'n' then ReadWord(s, "null", NullTree)
    else if s[0] == 't' then ReadWord(s, "true", BoolTree(true))
    else ReadWord(s, "false", BoolTree(false))
  }

  /** At least one item, and the closing bracket. */
  function ReadItems(s: string): (r: Option<(seq<Tree>, string)>)
    ensures r.Some? ==> |r.value.1| < |s|
    decreases |s|, 2
  {
    match ReadValue(s)
    case None => None
    case Some((t, rest)) =>
      if rest == "" then None
      else if rest[0] == ']' then Some(([t], rest[1..]))
      else if rest[0] == ',' then
        match ReadItems(rest[1..])
        case None => None
        case Some((ts, end)) => Some(([t] + ts, end))
      else None
  }

  /** At least one member, and the closing brace. */
  function ReadMembers(s: string): (r: Option<(map<string, Tree>, string)>)
    ensures r.Some? ==> |r.value.1| < |s|
    decreases |s|, 2
  {
    if s == "" || s[0] != '"' then None
    else match ReadChars(s[1..])
      case None => None
      case Some((key, s1)) =>
        if s1 == "" || s1[0] != ':' then None
        else match ReadValue(s1[1..])
          case None => None
          case Some((t, rest)) =>
            if rest == "" then None
            else if rest[0] == '}' then Some((map[key := t], rest[1..]))
            else if rest[0] == ',' then
              match ReadMembers(rest[1..])
              case None => None
              case Some((m, end)) => Some((m[key := t], end))
            else None
  }

  // --------------------------------------------------------------- round trip

  lemma HexIsRead(n: nat)
    requires n < 16
    ensures HexValue(Hex(n)) == Some(n)
  {
  }

  lemma CharIsRead(c: char, x: string)
    ensures var s := Escape(c) + x;
      && s[0] != '"' && s[0] as int >= 32
      && (if s[0] == '\\' then ReadEscape(s[1..]) == Some((c, x)) else s[0] == c && s[1..] == x)
  {
    var e := Escape(c);
    var s := e + x;
    assert s[0] == e[0];
    if |e| == 6 {
      HexIsRead(c as int / 16);
      HexIsRead(c as int % 16);
      assert s[1..][0] == 'u' && s[1..][1] == '0' && s[1..][2] == '0' && s[1..][3] == e[4] && s[1..][4] == e[5];
      assert s[1..][5..] == x;
    } else if |e| == 2 {
      assert s[1..][0] == e[1] && s[1..][1..] == x;
    } else {
      assert s[1..] == x;
    }
  }

  lemma {:induction false} CharsAreRead(cs: string, x: string)
    ensures ReadChars(Escaped(cs) + (['"'] + x)) == Some((cs, x))
  {
    if cs == [] {
      Nothing(['"'] + x);
      assert (['"'] + x)[1..] == x;
    } else {
      var rest := Escaped(cs[1..]) + (['"'] + x);
      Assoc(Escape(cs[0]), Escaped(cs[1..]), ['"'] + x);
      CharIsRead(cs[0], rest);
      CharsAreRead(cs[1..], x);
      assert cs == [cs[0]] + cs[1..];
    }
  }

  lemma StringIsRead(cs: string, x: string)
    ensures var s := Quoted(cs) + x; s[0] == '"' && ReadChars(s[1..]) == Some((cs, x))
  {
    QuotedUnfolds(cs, x);
    CharsAreRead(cs, x);
    assert (['"'] + (Escaped(cs) + (['"'] + x)))[1..] == Escaped(cs) + (['"'] + x);
  }

  lemma {:induction false} NumberIsRead(t: string, x: string)
    requires (forall i :: 0 <= i < |t| ==> NumberChar(t[i])) && Stops(x)
    ensures NumberSize(t + x) == |t|
  {
    if t == "" {
      assert t + x == x;
    } else {
      assert (t + x)[1..] == t[1..] + x;
      NumberIsRead(t[1..], x);
    }
  }

  lemma WordIsRead(word: string, x: string, t: Tree)
    ensures ReadWord(word + x, word, t) == Some((t, x))
  {
    assert (word + x)[..|word|] == word && (word + x)[|word|..] == x;
  }

  /** Whatever follows, the text of a value is read as that value. */
  lemma {:induction false} ValueIsRead(v: Json, x: string)
    requires WellFormed(v) && Stops(x)
    ensures ReadValue(Render(v) + x) == Some((Meaning(v), x))
    decreases v
  {
    var s := Render(v) + x;
    HeadIsFirst(v, x);
    match v
    case Null => WordIsRead("null", x, NullTree);
    case Bool(b) => WordIsRead(Render(v), x, BoolTree(b));
    case Number(t) =>
      NumberIsRead(t, x);
      assert s[..|t|] == t && s[|t|..] == x;
    case String(cs) => StringIsRead(cs, x);
    case Array(items) => ArrayIsRead(items, x);
    case Object(members) => ObjectIsRead(members, x);
  }

  lemma {:induction false} ArrayIsRead(items: seq<Json>, x: string)
    requires (forall i :: 0 <= i < |items| ==> WellFormed(items[i])) && Stops(x)
    ensures ReadValue(Render(Array(items)) + x) == Some((ArrayTree(Meanings(items)), x))
    decreases items, 1
  {
    var inner := RenderItems(items, true) + ([']'] + x);
    BracketsUnfold('[', RenderItems(items, true), ']', x);
    var s := ['['] + inner;
    assert s[1..] == inner && (inner != [] ==> s[1] == inner[0]);
    FirstOfItems(items, true, x);
    if items == [] {
      Nothing([']'] + x);
      assert s[2..] == x;
    } else {
      ItemsAreRead(items, x);
    }
  }

  lemma {:induction false} ItemsAreRead(items: seq<Json>, x: string)
    requires items != [] && (forall i :: 0 <= i < |items| ==> WellFormed(items[i])) && Stops(x)
    ensures ReadItems(RenderItems(items, true) + ([']'] + x)) == Some((Meanings(items), x))
    decreases items, 0
  {
    hide Render, RenderItems, ReadValue, WellFormed;
    var more := RenderItems(items[1..], false) + ([']'] + x);
    ItemsUnfold(items, true, [']'] + x);
    Nothing(Render(items[0]) + more);
    FirstOfItems(items[1..], false, x);
    ValueIsRead(items[0], more);
    if items[1..] == [] {
      NoItems([']'] + x);
      assert more[1..] == x;
      Nothing([Meaning(items[0])]);
    } else {
      CommaOfItems(items[1..], [']'] + x);
      ItemsAreRead(items[1..], x);
    }
  }

  lemma NoItems(x: string)
    ensures RenderItems([], false) + x == x && RenderMembers([], false) + x == x
  {
    Nothing(x);
  }

  lemma CommaOfItems(items: seq<Json>, x: string)
    requires items != []
    ensures RenderItems(items, false) + x == [','] + (RenderItems(items, true) + x)
    ensures (RenderItems(items, false) + x)[0] == ',' && (RenderItems(items, false) + x)[1..] == RenderItems(items, true) + x
  {
    ItemsUnfold(items, false, x);
    ItemsUnfold(items, true, x);
    Nothing(Render(items[0]) + (RenderItems(items[1..], false) + x));
    assert ([','] + (RenderItems(items, true) + x))[1..] == RenderItems(items, true) + x;
  }

  lemma {:induction false} ObjectIsRead(members: seq<Member>, x: string)
    requires (forall i :: 0 <= i < |members| ==> WellFormed(members[i].value)) && Stops(x)
    ensures ReadValue(Render(Object(members)) + x) == Some((ObjectTree(MapOf(members)), x))
    decreases members, 1
  {
    var inner := RenderMembers(members, true) + (['}'] + x);
    BracketsUnfold('{', RenderMembers(members, true), '}', x);
    var s := ['{'] + inner;
    assert s[1..] == inner && (inner != [] ==> s[1] == inner[0]);
    FirstOfMembers(members, true, x);
    if members == [] {
      Nothing(['}'] + x);
      assert s[2..] == x;
    } else {
      MembersAreRead(members, x);
    }
  }

  lemma {:induction false} MembersAreRead(members: seq<Member>, x: string)
    requires members != [] && (forall i :: 0 <= i < |members| ==> WellFormed(members[i].value)) && Stops(x)
    ensures ReadMembers(RenderMembers(members, true) + (['}'] + x)) == Some((MapOf(members), x))
    decreases members, 0
  {
    hide Render, RenderMembers, ReadValue, ReadChars, WellFormed;
    var more := RenderMembers(members[1..], false) + (['}'] + x);
    var value := Render(members[0].value) + more;
    MembersUnfold(members, true, ['}'] + x);
    Nothing(Quoted(members[0].key) + ([':'] + value));
    StringIsRead(members[0].key, [':'] + value);
    assert ([':'] + value)[1..] == value;
    FirstOfMembers(members[1..], false, x);
    ValueIsRead(members[0].value, more);
    if members[1..] == [] {
      NoItems(['}'] + x);
      assert more[1..] == x;
      assert MapOf(members[1..]) == map[];
    } else {
      CommaOfMembers(members[1..], ['}'] + x);
      MembersAreRead(members[1..], x);
    }
  }

  lemma CommaOfMembers(members: seq<Member>, x: string)
    requires members != []
    ensures (RenderMembers(members, false) + x)[0] == ',' && (RenderMembers(members, false) + x)[1..] == RenderMembers(members, true) + x
  {
    MembersUnfold(members, false, x);
    MembersUnfold(members, true, x);
    var rest := Quoted(members[0].key) + ([':'] + (Render(members[0].value) + (RenderMembers(members[1..], false) + x)));
    Nothing(rest);
    assert ([','] + rest)[1..] == rest;
  }

  /** The canonical text is JSON, and says what the value is. */
  lemma CanonicalTextIsRead(v: Json)
    requires WellFormed(v)
    ensures ReadValue(CanonicalText(v)) == Some((Meaning(v), ""))
  {
    CanonKeepsMeaning(v);
    ValueIsRead(Canon(v), "");
    Nothing(CanonicalText(v));
  }
}
