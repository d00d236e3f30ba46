/**
 Canonical JSON (src-core/src/requests.rs:1406-1445), the text whose hash decides whether a
 repeated client key carries the same request.
 */
module CanonicalJson {
  import opened Bytes

  /** A JSON value as parsed: an object keeps its members in the order they came in. A
      number is its decimal text. */
  datatype Json =
    | Null
    | Bool(value: bool)
    | Number(text: string)
    | String(chars: string)
    | Array(items: seq<Json>)
    | Object(members: seq<Member>)

  datatype Member = Member(key: string, value: Json)

  /** What the value is: an object is a map. */
  datatype Tree =
    | NullTree
    | BoolTree(value: bool)
    | NumberTree(text: string)
    | StringTree(chars: string)
    | ArrayTree(items: seq<Tree>)
    | ObjectTree(members: map<string, Tree>)

  predicate NumberChar(c: char) { '0' <= c <= '9' || c == '-' || c == '+' || c == '.' || c == 'e' || c == 'E' }

  predicate Distinct(members: seq<Member>) {
    forall i, j :: 0 <= i < j < |members| ==> members[i].key != members[j].key
  }

  /** Numbers look like numbers and no object names a key twice. */
  predicate WellFormed(v: Json)
    decreases v
  {
    match v
    case Number(t) => t != [] && ('0' <= t[0] <= '9' || t[0] == '-') && forall i :: 0 <= i < |t| ==> NumberChar(t[i])
    case Array(items) => forall i :: 0 <= i < |items| ==> WellFormed(items[i])
    case Object(members) => Distinct(members) && forall i :: 0 <= i < |members| ==> WellFormed(members[i].value)
    case _ => true
  }

  function Meaning(v: Json): Tree
    decreases v
  {
    match v
    case Null => NullTree
    case Bool(b) => BoolTree(b)
    case Number(t) => NumberTree(t)
    case String(s) => StringTree(s)
    case Array(items) => ArrayTree(Meanings(items))
    case Object(members) => ObjectTree(MapOf(members))
  }

  function Meanings(items: seq<Json>): (ts: seq<Tree>)
    ensures |ts| == |items|
    decreases items
  {
    if items == [] then [] else [Meaning(items[0])] + Meanings(items[1..])
  }

  function MapOf(members: seq<Member>): (m: map<string, Tree>)
    decreases members
  {
    if members == [] then map[] else MapOf(members[1..])[members[0].key := Meaning(members[0].value)]
  }

  // --------------------------------------------------------------- key order

  /** The order of the keys' bytes, which is that of their code points. */
  predicate Below(a: string, b: string) {
    b != "" && (a == "" || a[0] < b[0] || (a[0] == b[0] && Below(a[1..], b[1..])))
  }

  lemma {:induction false} BelowIsTotal(a: string, b: string)
    ensures a == b || Below(a, b) || Below(b, a)
    decreases |a|
  {
    if a != "" && b != "" && a[0] == b[0] {
      BelowIsTotal(a[1..], b[1..]);
      if a[1..] == b[1..] { assert a == [a[0]] + a[1..] && b == [b[0]] + b[1..]; }
    }
  }

  lemma {:induction false} BelowIsStrict(a: string, b: string)
    requires Below(a, b)
    ensures a != b && !Below(b, a)
    decreases |a|
  {
    if a != "" && a[0] == b[0] { BelowIsStrict(a[1..], b[1..]); }
  }

  lemma {:induction false} BelowIsTransitive(a: string, b: string, c: string)
    requires Below(a, b) && Below(b, c)
    ensures Below(a, c)
    decreases |a|
  {
    if a != "" && a[0] == b[0] == c[0] { BelowIsTransitive(a[1..], b[1..], c[1..]); }
  }

  predicate Sorted(members: seq<Member>) {
    forall i, j :: 0 <= i < j < |members| ==> Below(members[i].key, members[j].key)
  }

  function Insert(x: Member, members: seq<Member>): seq<Member> {
    if members == [] || Below(x.key, members[0].key) then [x] + members
    else [members[0]] + Insert(x, members[1..])
  }

  function Sort(members: seq<Member>): seq<Member> {
    if members == [] then [] else Insert(members[0], Sort(members[1..]))
  }

  predicate Absent(k: string, members: seq<Member>) { forall i :: 0 <= i < |members| ==> members[i].key != k }

  // ----------------------------------------------------------------- writing

  function Hex(n: nat): char
    requires n < 16
  {
    if n < 10 then '0' + n as char else 'a' + (n - 10) as char
  }

  /** serde_json's escapes. */
  function Escape(c: char): (s: string)
    ensures s != []
  {
    if c == '"' then ['\\', '"']
    else if c == '\\' then ['\\', '\\']
    else if c as int == 8 then ['\\', 'b']
    else if c as int == 9 then ['\\', 't']
    else if c as int == 10 then ['\\', 'n']
    else if c as int == 12 then ['\\', 'f']
    else if c as int == 13 then ['\\', 'r']
    else if c as int < 32 then ['\\', 'u', '0', '0', Hex(c as int / 16), Hex(c as int % 16)]
    else [c]
  }

  function Escaped(s: string): string { if s == [] then [] else Escape(s[0]) + Escaped(s[1..]) }

  function Quoted(s: string): string { ['"'] + (Escaped(s) + ['"']) }

  /** The text of a value with its members in the order given. */
  function Render(v: Json): string
    decreases v
  {
    match v
    case Null => "null"
    case Bool(b) => if b then "true" else "false"
    case Number(t) => t
    case String(s) => Quoted(s)
    case Array(items) => ['['] + (RenderItems(items, true) + [']'])
    case Object(members) => ['{'] + (RenderMembers(members, true) + ['}'])
  }

  function Comma(first: bool): string { if first then [] else [','] }

  function RenderItems(items: seq<Json>, first: bool): string
    decreases items
  {
    if items == [] then [] else Comma(first) + (Render(items[0]) + RenderItems(items[1..], false))
  }

  function RenderMembers(members: seq<Member>, first: bool): string
    decreases members
  {
    if members == [] then []
    else Comma(first) + (Quoted(members[0].key) + ([':'] + (Render(members[0].value) + RenderMembers(members[1..], false))))
  }

  /** Every object's members sorted, inside out. */
  function Canon(v: Json): Json
    decreases v
  {
    match v
    case Array(items) => Array(CanonItems(items))
    case Object(members) => Object(Sort(CanonMembers(members)))
    case _ => v
  }

  function CanonItems(items: seq<Json>): (s: seq<Json>)
    ensures |s| == |items| && forall i :: 0 <= i < |s| ==> s[i] == Canon(items[i])
    decreases items
  {
    if items == [] then [] else [Canon(items[0])] + CanonItems(items[1..])
  }

  function CanonMembers(members: seq<Member>): (s: seq<Member>)
    ensures |s| == |members| && forall i :: 0 <= i < |s| ==> s[i] == Member(members[i].key, Canon(members[i].value))
    decreases members
  {
    if members == [] then [] else [Member(members[0].key, Canon(members[0].value))] + CanonMembers(members[1..])
  }

  function CanonicalText(v: Json): string { Render(Canon(v)) }

  /** The buffer write_canonical_json pushes into. */
  class Output {
    var text: string

    constructor ()
      ensures text == []
    {
      text := [];
    }

    method Push(s: string)
      modifies this
      ensures text == old(text) + s
    {
      text := text + s;
    }

    method WriteCanonicalJson(v: Json)
      modifies this
      ensures text == old(text) + CanonicalText(v)
      decreases v
    {
      match v {
      case Null => Push("null");
      case Bool(b) => Push(if b then "true" else "false");
      case Number(t) => Push(t);
      case String(s) => Push(Quoted(s));
      case Array(items) => WriteItems(items);
      case Object(members) => WriteMembers(members);
      }
    }

    method WriteItems(items: seq<Json>)
      modifies this
      ensures text == old(text) + CanonicalText(Array(items))
      decreases items
    {
      var canon := CanonItems(items);
      Push(['[']);
      for i := 0 to |items|
        invariant text + RenderItems(canon[i..], i == 0) == old(text) + ['['] + RenderItems(canon, true)
      {
        ghost var rest := RenderItems(canon[i + 1..], false);
        Reassociate(text, Comma(i == 0), Render(canon[i]), rest);
        assert canon[i..][1..] == canon[i + 1..] && canon[i..][0] == canon[i];
        if i > 0 { Push([',']); } else { Nothing(text); }
        WriteCanonicalJson(items[i]);
      }
      Nothing(text);
      Push([']']);
      Reassociate(old(text), ['['], RenderItems(canon, true), [']']);
    }

    method WriteMembers(members: seq<Member>)
      modifies this
      ensures text == old(text) + CanonicalText(Object(members))
      decreases members
    {
      var sorted := Sort(members);
      ghost var canon := CanonMembers(sorted);
      SortThenCanon(members);
      Push(['{']);
      for i := 0 to |sorted|
        invariant text + RenderMembers(canon[i..], i == 0) == old(text) + ['{'] + RenderMembers(canon, true)
      {
        ghost var rest := RenderMembers(canon[i + 1..], false);
        Reassociate5(text, Comma(i == 0), Quoted(canon[i].key), [':'], Render(canon[i].value), rest);
        assert canon[i..][1..] == canon[i + 1..] && canon[i..][0] == canon[i];
        if i > 0 { Push([',']); } else { Nothing(text); }
        Push(Quoted(sorted[i].key));
        Push([':']);
        SortKeeps(members, sorted[i]);
        ghost var at :| 0 <= at < |members| && members[at] == sorted[i];
        WriteCanonicalJson(sorted[i].value);
      }
      Nothing(text);
      Push(['}']);
      Reassociate(old(text), ['{'], RenderMembers(canon, true), ['}']);
    }
  }

  lemma Reassociate(a: string, b: string, c: string, d: string)
    ensures a + (b + (c + d)) == a + b + c + d
  {
  }

  lemma Reassociate5(a: string, b: string, c: string, d: string, e: string, f: string)
    ensures a + (b + (c + (d + (e + f)))) == a + b + c + d + e + f
  {
  }

  lemma {:induction false} SortKeeps(members: seq<Member>, x: Member)
    ensures x in Sort(members) <==> x in members
  {
    if members != [] {
      InsertKeeps(members[0], Sort(members[1..]), x);
      SortKeeps(members[1..], x);
    }
  }

  lemma {:induction false} InsertKeeps(y: Member, members: seq<Member>, x: Member)
    ensures x in Insert(y, members) <==> x == y || x in members
  {
    if members != [] && !Below(y.key, members[0].key) { InsertKeeps(y, members[1..], x); }
  }

  /** Sorting looks at keys only, so it may come before or after the children's turn. */
  lemma {:induction false} SortThenCanon(members: seq<Member>)
    ensures CanonMembers(Sort(members)) == Sort(CanonMembers(members))
  {
    if members != [] {
      SortThenCanon(members[1..]);
      InsertThenCanon(members[0], Sort(members[1..]));
      assert CanonMembers(members)[1..] == CanonMembers(members[1..]);
    }
  }

  lemma {:induction false} InsertThenCanon(x: Member, members: seq<Member>)
    ensures CanonMembers(Insert(x, members)) == Insert(Member(x.key, Canon(x.value)), CanonMembers(members))
  {
    if members == [] || Below(x.key, members[0].key) {
      assert Insert(Member(x.key, Canon(x.value)), CanonMembers(members)) == [Member(x.key, Canon(x.value))] + CanonMembers(members);
    } else {
      InsertThenCanon(x, members[1..]);
      assert CanonMembers(members)[1..] == CanonMembers(members[1..]);
    }
  }

  // ------------------------------------------------- one text, one value

  /** What may follow a value inside a text. */
  predicate Stops(rest: string) { rest == [] || rest[0] == ',' || rest[0] == ']' || rest[0] == '}' }

  lemma EscapesDiffer(c: char, d: char, x: string, y: string)
    requires Escape(c) + x == Escape(d) + y
    ensures c == d && x == y
  {
    var s, t := Escape(c) + x, Escape(d) + y;
    assert s[0] == Escape(c)[0] && t[0] == Escape(d)[0];
    if |Escape(c)| > 1 && |Escape(d)| > 1 {
      assert s[1] == Escape(c)[1] && t[1] == Escape(d)[1];
      if |Escape(c)| == 6 && |Escape(d)| == 6 {
        assert s[4] == Escape(c)[4] && t[4] == Escape(d)[4] && s[5] == Escape(c)[5] && t[5] == Escape(d)[5];
        HexDiffers(c as int / 16, d as int / 16);
        HexDiffers(c as int % 16, d as int % 16);
      }
    }
    SameFront(Escape(c), x, y);
  }

  lemma HexDiffers(m: nat, n: nat)
    requires m < 16 && n < 16 && Hex(m) == Hex(n)
    ensures m == n
  {
  }

  lemma SameFront(a: string, x: string, y: string)
    ensures a + x == a + y ==> x == y
  {
    assert (a + x)[|a|..] == x && (a + y)[|a|..] == y;
  }

  lemma EscapeIsNoQuote(c: char)
    ensures Escape(c)[0] != '"'
  {
  }

  lemma FirstOfEscaped(s: string, x: string)
    ensures (Escaped(s) + (['"'] + x))[0] == '"' <==> s == []
  {
    if s != [] { EscapeIsNoQuote(s[0]); }
  }

  lemma {:induction false} EscapedDiffers(s: string, t: string, x: string, y: string)
    requires Escaped(s) + (['"'] + x) == Escaped(t) + (['"'] + y)
    ensures s == t && x == y
    decreases |s|
  {
    FirstOfEscaped(s, x);
    FirstOfEscaped(t, y);
    if s == [] {
      SameFront(['"'], x, y);
      Nothing(['"'] + x);
      Nothing(['"'] + y);
    } else {
      Assoc(Escape(s[0]), Escaped(s[1..]), ['"'] + x);
      Assoc(Escape(t[0]), Escaped(t[1..]), ['"'] + y);
      EscapesDiffer(s[0], t[0], Escaped(s[1..]) + (['"'] + x), Escaped(t[1..]) + (['"'] + y));
      EscapedDiffers(s[1..], t[1..], x, y);
      assert s == [s[0]] + s[1..] && t == [t[0]] + t[1..];
    }
  }

  lemma QuotedUnfolds(s: string, x: string)
    ensures Quoted(s) + x == ['"'] + (Escaped(s) + (['"'] + x))
  {
    Assoc(['"'], Escaped(s) + ['"'], x);
    Assoc(Escaped(s), ['"'], x);
  }

  lemma QuotedDiffers(s: string, t: string, x: string, y: string)
    requires Quoted(s) + x == Quoted(t) + y
    ensures s == t && x == y
  {
    QuotedUnfolds(s, x);
    QuotedUnfolds(t, y);
    SameFront(['"'], Escaped(s) + (['"'] + x), Escaped(t) + (['"'] + y));
    EscapedDiffers(s, t, x, y);
  }

  lemma NumbersDiffer(t: string, u: string, x: string, y: string)
    requires (forall i :: 0 <= i < |t| ==> NumberChar(t[i])) && (forall i :: 0 <= i < |u| ==> NumberChar(u[i]))
    requires Stops(x) && Stops(y) && t + x == u + y
    ensures t == u && x == y
  {
    var a := t + x;
    NumberEnds(t, x);
    NumberEnds(u, y);
    assert t == a[..|t|] && u == a[..|u|];
    SameFront(t, x, y);
  }

  lemma NumberEnds(t: string, x: string)
    requires (forall i :: 0 <= i < |t| ==> NumberChar(t[i])) && Stops(x)
    ensures forall i :: 0 <= i < |t| ==> NumberChar((t + x)[i])
    ensures |t| < |t + x| ==> !NumberChar((t + x)[|t|])
  {
  }

  /** What a value's text begins with. */
  function Head(v: Json): char {
    match v
    case Null => 'n'
    case Bool(b) => if b then 't' else 'f'
    case Number(t) => if t != [] then t[0] else '0'
    case String(_) => '"'
    case Array(_) => '['
    case Object(_) => '{'
  }

  lemma HeadIsFirst(v: Json, x: string)
    requires WellFormed(v)
    ensures Render(v) != [] && (Render(v) + x)[0] == Head(v)
    ensures Head(v) != ',' && Head(v) != ']' && Head(v) != '}'
  {
  }

  /** The bracketed texts, with the closing bracket counted to what follows. */
  lemma BracketsUnfold(open: char, inner: string, close: char, x: string)
    ensures ([open] + (inner + [close])) + x == [open] + (inner + ([close] + x))
  {
    Assoc([open], inner + [close], x);
    Assoc(inner, [close], x);
  }

  lemma BracketsDiffer(open: char, a: string, b: string, close: char, x: string, y: string)
    requires ([open] + (a + [close])) + x == ([open] + (b + [close])) + y
    ensures a + ([close] + x) == b + ([close] + y)
  {
    BracketsUnfold(open, a, close, x);
    BracketsUnfold(open, b, close, y);
    SameFront([open], a + ([close] + x), b + ([close] + y));
  }

  /** A text determines its value and where it ends. */
  lemma {:induction false} TextsDiffer(v: Json, w: Json, x: string, y: string)
    requires WellFormed(v) && WellFormed(w) && Stops(x) && Stops(y)
    requires Render(v) + x == Render(w) + y
    ensures v == w && x == y
    decreases v
  {
    HeadIsFirst(v, x);
    HeadIsFirst(w, y);
    match v
    case Number(t) => NumbersDiffer(t, w.text, x, y);
    case String(s) => QuotedDiffers(s, w.chars, x, y);
    case Array(items) =>
      BracketsDiffer('[', RenderItems(items, true), RenderItems(w.items, true), ']', x, y);
      ItemsDiffer(items, w.items, true, x, y);
    case Object(members) =>
      BracketsDiffer('{', RenderMembers(members, true), RenderMembers(w.members, true), '}', x, y);
      MembersDiffer(members, w.members, true, x, y);
    case _ => SameFront(Render(v), x, y);
  }

  lemma FirstOfItems(items: seq<Json>, first: bool, x: string)
    requires forall i :: 0 <= i < |items| ==> WellFormed(items[i])
    ensures var s := RenderItems(items, first) + ([']'] + x);
      && s != [] && (items == [] <==> s[0] == ']') && (!first ==> Stops(s))
  {
    if items != [] { HeadIsFirst(items[0], []); }
  }

  lemma ItemsUnfold(items: seq<Json>, first: bool, x: string)
    requires items != []
    ensures RenderItems(items, first) + x == Comma(first) + (Render(items[0]) + (RenderItems(items[1..], false) + x))
  {
    Assoc(Comma(first), Render(items[0]) + RenderItems(items[1..], false), x);
    Assoc(Render(items[0]), RenderItems(items[1..], false), x);
  }

  lemma {:induction false} ItemsDiffer(a: seq<Json>, b: seq<Json>, first: bool, x: string, y: string)
    requires (forall i :: 0 <= i < |a| ==> WellFormed(a[i])) && (forall i :: 0 <= i < |b| ==> WellFormed(b[i]))
    requires RenderItems(a, first) + ([']'] + x) == RenderItems(b, first) + ([']'] + y)
    ensures a == b && x == y
    decreases a
  {
    FirstOfItems(a, first, x);
    FirstOfItems(b, first, y);
    if a == [] {
      Nothing([']'] + x);
      Nothing([']'] + y);
      SameFront([']'], x, y);
    } else {
      var s, t := RenderItems(a[1..], false) + ([']'] + x), RenderItems(b[1..], false) + ([']'] + y);
      ItemsUnfold(a, first, [']'] + x);
      ItemsUnfold(b, first, [']'] + y);
      SameFront(Comma(first), Render(a[0]) + s, Render(b[0]) + t);
      FirstOfItems(a[1..], false, x);
      FirstOfItems(b[1..], false, y);
      TextsDiffer(a[0], b[0], s, t);
      ItemsDiffer(a[1..], b[1..], false, x, y);
      assert a == [a[0]] + a[1..] && b == [b[0]] + b[1..];
    }
  }

  lemma FirstOfMembers(members: seq<Member>, first: bool, x: string)
    ensures var s := RenderMembers(members, first) + (['}'] + x);
      && s != [] && (members == [] <==> s[0] == '}') && (!first ==> Stops(s))
  {
  }

  lemma MembersUnfold(members: seq<Member>, first: bool, x: string)
    requires members != []
    ensures RenderMembers(members, first) + x
         == Comma(first) + (Quoted(members[0].key) + ([':'] + (Render(members[0].value) + (RenderMembers(members[1..], false) + x))))
  {
    var q, r, t := Quoted(members[0].key), Render(members[0].value), RenderMembers(members[1..], false);
    Assoc(Comma(first), q + ([':'] + (r + t)), x);
    Assoc(q, [':'] + (r + t), x);
    Assoc([':'], r + t, x);
    Assoc(r, t, x);
  }

  lemma {:induction false} MembersDiffer(a: seq<Member>, b: seq<Member>, first: bool, x: string, y: string)
    requires (forall i :: 0 <= i < |a| ==> WellFormed(a[i].value)) && (forall i :: 0 <= i < |b| ==> WellFormed(b[i].value))
    requires RenderMembers(a, first) + (['}'] + x) == RenderMembers(b, first) + (['}'] + y)
    ensures a == b && x == y
    decreases a
  {
    FirstOfMembers(a, first, x);
    FirstOfMembers(b, first, y);
    if a == [] {
      Nothing(['}'] + x);
      Nothing(['}'] + y);
      SameFront(['}'], x, y);
    } else {
      var s, t := RenderMembers(a[1..], false) + (['}'] + x), RenderMembers(b[1..], false) + (['}'] + y);
      MembersUnfold(a, first, ['}'] + x);
      MembersUnfold(b, first, ['}'] + y);
      var p, q := [':'] + (Render(a[0].value) + s), [':'] + (Render(b[0].value) + t);
      SameFront(Comma(first), Quoted(a[0].key) + p, Quoted(b[0].key) + q);
      QuotedDiffers(a[0].key, b[0].key, p, q);
      SameFront([':'], Render(a[0].value) + s, Render(b[0].value) + t);
      FirstOfMembers(a[1..], false, x);
      FirstOfMembers(b[1..], false, y);
      TextsDiffer(a[0].value, b[0].value, s, t);
      MembersDiffer(a[1..], b[1..], false, x, y);
      assert a == [a[0]] + a[1..] && b == [b[0]] + b[1..];
    }
  }

  // ------------------------------------------------------------ normal form

  lemma {:induction false} MapOfHolds(members: seq<Member>)
    requires Distinct(members)
    ensures forall i :: 0 <= i < |members| ==> members[i].key in MapOf(members) && MapOf(members)[members[i].key] == Meaning(members[i].value)
    ensures forall k :: k in MapOf(members) ==> exists i :: 0 <= i < |members| && members[i].key == k
  {
    if members != [] {
      var rest := members[1..];
      MapOfHolds(rest);
      forall i | 0 <= i < |members|
        ensures members[i].key in MapOf(members) && MapOf(members)[members[i].key] == Meaning(members[i].value)
      {
        if i > 0 { assert members[i] == rest[i - 1]; }
      }
      forall k | k in MapOf(members) ensures exists i :: 0 <= i < |members| && members[i].key == k {
        if k != members[0].key {
          var i :| 0 <= i < |rest| && rest[i].key == k;
          assert members[i + 1].key == k;
        }
      }
    }
  }

  lemma {:induction false} InsertSorts(x: Member, members: seq<Member>)
    requires Sorted(members) && Absent(x.key, members)
    ensures Sorted(Insert(x, members))
  {
    if members != [] {
      if Below(x.key, members[0].key) {
        forall j | 0 <= j < |members| ensures Below(x.key, members[j].key) {
          if j > 0 { BelowIsTransitive(x.key, members[0].key, members[j].key); }
        }
      } else {
        BelowIsTotal(x.key, members[0].key);
        InsertSorts(x, members[1..]);
        var rest := Insert(x, members[1..]);
        forall j | 0 <= j < |rest| ensures Below(members[0].key, rest[j].key) {
          InsertKeeps(x, members[1..], rest[j]);
          if rest[j] != x { var k :| 0 <= k < |members[1..]| && members[1..][k] == rest[j]; }
        }
      }
    }
  }

  lemma {:induction false} SortSorts(members: seq<Member>)
    requires Distinct(members)
    ensures Sorted(Sort(members))
  {
    if members != [] {
      var rest := Sort(members[1..]);
      SortSorts(members[1..]);
      forall j | 0 <= j < |rest| ensures rest[j].key != members[0].key {
        SortKeeps(members[1..], rest[j]);
        var k :| 0 <= k < |members[1..]| && members[1..][k] == rest[j];
      }
      InsertSorts(members[0], rest);
    }
  }

  /** Two sorted lists with the same members are the same list. */
  lemma {:induction false} SortedIsUnique(p: seq<Member>, q: seq<Member>)
    requires Sorted(p) && Sorted(q) && forall x :: x in p <==> x in q
    ensures p == q
    decreases |p|
  {
    assert (p != [] ==> p[0] in p) && (q != [] ==> q[0] in q);
    if p != [] {
      var j :| 0 <= j < |q| && q[j] == p[0];
      var i :| 0 <= i < |p| && p[i] == q[0];
      if j > 0 {
        BelowIsStrict(q[0].key, p[0].key);
      }
      assert j == 0;
      RestsAgree(p, q);
      SortedIsUnique(p[1..], q[1..]);
      assert p == [p[0]] + p[1..] && q == [q[0]] + q[1..];
    }
  }

  lemma RestsAgree(p: seq<Member>, q: seq<Member>)
    requires p != [] && q != [] && p[0] == q[0] && Sorted(p) && Sorted(q) && forall x :: x in p <==> x in q
    ensures forall x :: x in p[1..] <==> x in q[1..]
    ensures Sorted(p[1..]) && Sorted(q[1..])
  {
    RestIsRest(p);
    RestIsRest(q);
  }

  lemma RestIsRest(p: seq<Member>)
    requires p != [] && Sorted(p)
    ensures forall x :: x in p[1..] <==> x in p && x != p[0]
  {
    forall x ensures x in p[1..] <==> x in p && x != p[0] {
      assert p == [p[0]] + p[1..];
      if x in p[1..] {
        var i :| 0 <= i < |p[1..]| && p[1..][i] == x;
        BelowIsStrict(p[0].key, p[i + 1].key);
      }
    }
  }

  lemma CanonKeepsDistinct(members: seq<Member>)
    requires Distinct(members)
    ensures Distinct(CanonMembers(members))
  {
  }

  /** Equal values have the same normal form. */
  lemma {:induction false} SameMeaningSameCanon(v: Json, w: Json)
    requires WellFormed(v) && WellFormed(w) && Meaning(v) == Meaning(w)
    ensures Canon(v) == Canon(w)
    decreases v
  {
    match v
    case Array(items) => SameMeaningsSameCanons(items, w.items);
    case Object(members) =>
      var p, q := CanonMembers(members), CanonMembers(w.members);
      CanonKeepsDistinct(members);
      CanonKeepsDistinct(w.members);
      SortSorts(p);
      SortSorts(q);
      MembersCarryOver(members, w.members);
      forall x ensures x in Sort(p) <==> x in Sort(q) {
        SortKeeps(p, x);
        SortKeeps(q, x);
      }
      SortedIsUnique(Sort(p), Sort(q));
    case _ =>
  }

  lemma {:induction false} SameMeaningsSameCanons(a: seq<Json>, b: seq<Json>)
    requires (forall i :: 0 <= i < |a| ==> WellFormed(a[i])) && (forall i :: 0 <= i < |b| ==> WellFormed(b[i]))
    requires Meanings(a) == Meanings(b)
    ensures CanonItems(a) == CanonItems(b)
    decreases a
  {
    assert |a| == |Meanings(a)| == |b|;
    if a != [] {
      assert Meanings(a)[0] == Meanings(b)[0] && Meanings(a)[1..] == Meanings(b)[1..];
      SameMeaningSameCanon(a[0], b[0]);
      SameMeaningsSameCanons(a[1..], b[1..]);
    }
  }

  lemma {:induction false} MembersCarryOver(m: seq<Member>, n: seq<Member>)
    requires Distinct(m) && Distinct(n) && MapOf(m) == MapOf(n)
    requires (forall i :: 0 <= i < |m| ==> WellFormed(m[i].value)) && (forall i :: 0 <= i < |n| ==> WellFormed(n[i].value))
    ensures forall x :: x in CanonMembers(m) <==> x in CanonMembers(n)
    decreases m
  {
    MapOfHolds(m);
    MapOfHolds(n);
    forall i | 0 <= i < |m| ensures CanonMembers(m)[i] in CanonMembers(n) {
      assert m[i].key in MapOf(n);
      var j :| 0 <= j < |n| && n[j].key == m[i].key;
      SameMeaningSameCanon(m[i].value, n[j].value);
      assert CanonMembers(n)[j] == CanonMembers(m)[i];
    }
    forall j | 0 <= j < |n| ensures CanonMembers(n)[j] in CanonMembers(m) {
      assert n[j].key in MapOf(m);
      var i :| 0 <= i < |m| && m[i].key == n[j].key;
      SameMeaningSameCanon(m[i].value, n[j].value);
      assert CanonMembers(m)[i] == CanonMembers(n)[j];
    }
  }

  /** The normal form means what the value means. */
  lemma {:induction false} CanonKeepsMeaning(v: Json)
    requires WellFormed(v)
    ensures WellFormed(Canon(v)) && Meaning(Canon(v)) == Meaning(v)
    decreases v
  {
    match v
    case Array(items) => CanonsKeepMeanings(items);
    case Object(members) =>
      var p := CanonMembers(members);
      CanonKeepsDistinct(members);
      SortSorts(p);
      forall i | 0 <= i < |Sort(p)| ensures WellFormed(Sort(p)[i].value) {
        SortKeeps(p, Sort(p)[i]);
        var k :| 0 <= k < |p| && p[k] == Sort(p)[i];
        CanonKeepsMeaning(members[k].value);
      }
      SortedIsDistinct(Sort(p));
      forall i | 0 <= i < |members| ensures Meaning(p[i].value) == Meaning(members[i].value) { CanonKeepsMeaning(members[i].value); }
      SameLists(p, members);
      SortKeepsMap(p);
    case _ =>
  }

  lemma SortedIsDistinct(p: seq<Member>)
    requires Sorted(p)
    ensures Distinct(p)
  {
    forall i, j | 0 <= i < j < |p| ensures p[i].key != p[j].key { BelowIsStrict(p[i].key, p[j].key); }
  }

  lemma {:induction false} SameLists(p: seq<Member>, q: seq<Member>)
    requires |p| == |q| && forall i :: 0 <= i < |p| ==> p[i].key == q[i].key && Meaning(p[i].value) == Meaning(q[i].value)
    ensures MapOf(p) == MapOf(q)
  {
    if p != [] { SameLists(p[1..], q[1..]); }
  }

  lemma MapOfSome(p: seq<Member>, q: seq<Member>)
    requires Distinct(p) && Distinct(q) && forall x :: x in p ==> x in q
    ensures forall k :: k in MapOf(p) ==> k in MapOf(q) && MapOf(q)[k] == MapOf(p)[k]
  {
    MapOfHolds(p);
    MapOfHolds(q);
    forall k | k in MapOf(p) ensures k in MapOf(q) && MapOf(q)[k] == MapOf(p)[k] {
      var i :| 0 <= i < |p| && p[i].key == k;
      assert p[i] in q;
    }
  }

  lemma SortKeepsMap(p: seq<Member>)
    requires Distinct(p)
    ensures MapOf(Sort(p)) == MapOf(p)
  {
    SortSorts(p);
    SortedIsDistinct(Sort(p));
    forall x ensures x in Sort(p) <==> x in p { SortKeeps(p, x); }
    MapOfSome(p, Sort(p));
    MapOfSome(Sort(p), p);
  }

  lemma {:induction false} CanonsKeepMeanings(items: seq<Json>)
    requires forall i :: 0 <= i < |items| ==> WellFormed(items[i])
    ensures (forall i :: 0 <= i < |items| ==> WellFormed(CanonItems(items)[i])) && Meanings(CanonItems(items)) == Meanings(items)
    decreases items
  {
    if items != [] {
      CanonKeepsMeaning(items[0]);
      CanonsKeepMeanings(items[1..]);
      assert CanonItems(items)[1..] == CanonItems(items[1..]);
      forall i | 0 <= i < |items| ensures WellFormed(CanonItems(items)[i]) {
        if i > 0 { assert CanonItems(items)[i] == CanonItems(items[1..])[i - 1]; }
      }
    }
  }

  // ---------------------------------------------------------- main theorems

  /** Two values have the same canonical text if and only if they are equal: the order in
      which an object's members came in never matters, and nothing else is lost. */
  lemma CanonicalTextIsExact(v: Json, w: Json)
    requires WellFormed(v) && WellFormed(w)
    ensures CanonicalText(v) == CanonicalText(w) <==> Meaning(v) == Meaning(w)
  {
    CanonKeepsMeaning(v);
    CanonKeepsMeaning(w);
    if CanonicalText(v) == CanonicalText(w) {
      Nothing(CanonicalText(v));
      TextsDiffer(Canon(v), Canon(w), [], []);
    }
    if Meaning(v) == Meaning(w) { SameMeaningSameCanon(v, w); }
  }

  /** What request_hash hashes. */
  function Envelope(endpoint: string, model: string, body: Json): Json {
    Object([Member("endpoint", String(endpoint)), Member("model", String(model)), Member("body", body)])
  }

  /** The hashed texts of two requests agree exactly when endpoint, model and body do, so
      short of a collision a repeated client key is a conflict if and only if one differs. */
  lemma RequestsConflictExactly(e: string, m: string, body: Json, f: string, n: string, other: Json)
    requires WellFormed(body) && WellFormed(other)
    ensures CanonicalText(Envelope(e, m, body)) == CanonicalText(Envelope(f, n, other))
        <==> e == f && m == n && Meaning(body) == Meaning(other)
  {
    CanonicalTextIsExact(Envelope(e, m, body), Envelope(f, n, other));
    EnvelopeMap(e, m, body);
    EnvelopeMap(f, n, other);
  }

  lemma EnvelopeMap(e: string, m: string, body: Json)
    ensures var t := Meaning(Envelope(e, m, body)).members;
      && t.Keys == {"endpoint", "model", "body"}
      && t["endpoint"] == StringTree(e) && t["model"] == StringTree(m) && t["body"] == Meaning(body)
  {
    var a, b, c := Member("endpoint", String(e)), Member("model", String(m)), Member("body", body);
    assert [a, b, c][1..] == [b, c] && [b, c][1..] == [c] && [c][1..] == [];
    assert "endpoint"[0] == 'e' && "model"[0] == 'm' && "body"[0] == 'b';
    assert MapOf([c]) == map["body" := Meaning(body)];
    assert MapOf([b, c]) == MapOf([c])["model" := StringTree(m)];
    assert MapOf([a, b, c]) == MapOf([b, c])["endpoint" := StringTree(e)];
  }
}
