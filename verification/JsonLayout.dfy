/** White space between the tokens of a manifest: the parser does not see it. */
module JsonLayout {
  import opened Basics
  import opened JsonSpec
  import opened JsonRoundTrip
  import opened JsonManifest

  /** A character of a string as it is written, or a backslash and another. */
  datatype Piece = Plain(c: char) | Esc(e: char)

  datatype Item = Mark(c: char) | Quoted(s: seq<Piece>)

  /** A text as tokens, each with what stands before it. */
  datatype Layout = Tail(gap: seq<char>) | Then(gap: seq<char>, item: Item, rest: Layout)

  /** The four characters of section 2 of RFC 8259. */
  predicate White(s: seq<char>) {
    forall i | 0 <= i < |s| :: s[i] == ' ' || s[i] == '\n' || s[i] == '\r' || s[i] == '\t'
  }

  predicate ItemOk(x: Item) {
    match x
    case Mark(c) => c != ' ' && c != '\n' && c != '\r' && c != '\t' && c != '"'
    case Quoted(s) => forall i | 0 <= i < |s| && s[i].Plain? :: s[i].c != '"' && s[i].c != '\\'
  }

  predicate Ok(l: Layout) {
    White(l.gap) && (l.Then? ==> ItemOk(l.item) && Ok(l.rest))
  }

  function PieceChars(x: Piece): seq<char> {
    match x case Plain(c) => [c] case Esc(e) => ['\\', e]
  }

  function PiecesText(s: seq<Piece>, k: Text): Text {
    if s == [] then k else Onto(PieceChars(s[0]), PiecesText(s[1..], k))
  }

  function ItemText(x: Item, k: Text): Text {
    match x
    case Mark(c) => Ch(c, k)
    case Quoted(s) => Ch('"', PiecesText(s, Ch('"', k)))
  }

  /** The text itself. */
  function Lay(l: Layout): Text {
    Onto(l.gap, if l.Tail? then End else ItemText(l.item, Lay(l.rest)))
  }

  /** The same tokens; after a last closing bracket anything white, elsewhere white space or none at the end. */
  predicate Same(a: Layout, b: Layout) {
    match (a, b)
    case (Tail(g), Tail(h)) => g == [] <==> h == []
    case (Then(_, x, r), Then(_, y, s)) => x == y && (Same(r, s) || (x == Mark(']') && r.Tail? && s.Tail?))
    case _ => false
  }

  predicate Alike(a: Layout, b: Layout) { Ok(a) && Ok(b) && Same(a, b) }

  function Size(l: Layout): nat { if l.Tail? then 0 else 1 + Size(l.rest) }

  function Bare(l: Layout): Layout { l.(gap := []) }

  // ---------------------------------------------------------------- reading tokens

  lemma {:induction false} SkipWhite(g: seq<char>, k: Text)
    requires White(g)
    ensures Skip(Onto(g, k)) == Skip(k)
  {
    if g != [] {
      SkipWhite(g[1..], k);
    }
  }

  lemma SkipLay(l: Layout)
    requires Ok(l)
    ensures Skip(Lay(l)) == Lay(Bare(l))
  {
    SkipWhite(l.gap, if l.Tail? then End else ItemText(l.item, Lay(l.rest)));
  }

  lemma BareAlike(a: Layout, b: Layout)
    requires Alike(a, b)
    ensures Alike(Bare(a), Bare(b)) && Size(Bare(a)) == Size(a)
  {
  }

  lemma SkipBare(l: Layout)
    requires Ok(l)
    ensures Skip(Lay(Bare(l))) == Lay(Bare(l))
  {
    SkipLay(Bare(l));
  }

  predicate IsMark(l: Layout, c: char) { l.Then? && l.item == Mark(c) }

  lemma StartsLay(l: Layout, c: char)
    requires Ok(l) && c != '"'
    ensures Starts(Skip(Lay(l)), c) <==> IsMark(l, c)
    ensures IsMark(l, c) ==> Skip(Lay(l)).rest == Lay(l.rest)
  {
    SkipLay(l);
  }

  lemma ExpectLay(l: Layout, c: char)
    requires Ok(l) && c != '"'
    ensures Expect(Lay(l), c) == if IsMark(l, c) then Some(Lay(l.rest)) else None
  {
    StartsLay(l, c);
  }

  /** What a buffer of `cap` bytes holds of the pieces; None for an escape that is none. */
  function Held(s: seq<Piece>, cap: nat, acc: seq<char>): Option<seq<char>>
    decreases |s|
  {
    if s == [] then Some(acc) else
    match s[0]
    case Plain(c) => Held(s[1..], cap, Store(acc, c, cap))
    case Esc(e) => if Unescape(e).None? then None else Held(s[1..], cap, Store(acc, Unescape(e).value, cap))
  }

  lemma {:induction false} BodyPieces(s: seq<Piece>, cap: nat, acc: seq<char>, k: Text)
    requires ItemOk(Quoted(s))
    ensures var h := Held(s, cap, acc);
            Body(PiecesText(s, Ch('"', k)), cap, acc) == if h.None? then None else Some((h.value, k))
    decreases |s|
  {
    if s != [] {
      var more := PiecesText(s[1..], Ch('"', k));
      match s[0] {
        case Plain(c) =>
          OntoOne(c, more);
          BodyPieces(s[1..], cap, Store(acc, c, cap), k);
        case Esc(e) =>
          OntoTwo('\\', e, more);
          if Unescape(e).Some? {
            BodyPieces(s[1..], cap, Store(acc, Unescape(e).value, cap), k);
          }
      }
    }
  }

  /** The string a layout begins with. */
  function FirstString(l: Layout, cap: nat): Option<seq<char>> {
    if l.Then? && l.item.Quoted? then Held(l.item.s, cap, []) else None
  }

  lemma StrLay(l: Layout, cap: nat)
    requires Ok(l)
    ensures var s := FirstString(l, cap);
            (s.Some? ==> l.Then?) && Str(Lay(l), cap) == if s.None? then None else Some((s.value, Lay(l.rest)))
  {
    SkipLay(l);
    if l.Then? && l.item.Quoted? {
      BodyPieces(l.item.s, cap, [], Lay(l.rest));
    }
  }

  // ---------------------------------------------------------------- side by side

  lemma RestAlike(a: Layout, b: Layout)
    requires Alike(a, b) && a.Then? && a.item != Mark(']')
    ensures b.Then? && a.item == b.item && Alike(a.rest, b.rest) && Size(a.rest) < Size(a)
  {
  }

  /** What is read from two texts, and what is left of them; or that nothing could be read. */
  datatype Two = Neither | Both(pkg: Pkg, left: Layout, right: Layout)

  /** Both texts give the same member, or none, and leave the same tokens. */
  lemma MemberAlike(a: Layout, b: Layout, p: Pkg) returns (r: Two)
    requires Alike(a, b)
    ensures Member(Lay(a), p) == if r.Both? then Some((r.pkg, Lay(r.left))) else None
    ensures Member(Lay(b), p) == if r.Both? then Some((r.pkg, Lay(r.right))) else None
    ensures r.Both? ==> Alike(r.left, r.right) && Size(r.left) < Size(a)
  {
    r := Neither;
    StrLay(a, KEY_CAP);
    StrLay(b, KEY_CAP);
    var key := FirstString(a, KEY_CAP);
    if key.None? { return; }
    RestAlike(a, b);
    var a', b' := a.rest, b.rest;
    ExpectLay(a', ':');
    ExpectLay(b', ':');
    if !IsMark(a', ':') { return; }
    RestAlike(a', b');
    a', b' := a'.rest, b'.rest;
    var k := UpToNul(key.value);
    StrLay(a', CapFor(k));
    StrLay(b', CapFor(k));
    var v := FirstString(a', CapFor(k));
    if v.None? { return; }
    RestAlike(a', b');
    r := Both(With(p, k, UpToNul(v.value)), a'.rest, b'.rest);
  }

  /** One turn of the loop over the members of an object: whether it ends, and with what. */
  lemma TurnAlike(a: Layout, b: Layout, p: Pkg) returns (done: bool, r: Two)
    requires Alike(a, b) && Lay(a).Ch? && Lay(b).Ch?
    ensures MemberTurn(Lay(a), p) ==
              if r.Neither? then Over(None) else if done then Over(Some((r.pkg, Lay(r.left)))) else On(r.pkg, Lay(r.left))
    ensures MemberTurn(Lay(b), p) ==
              if r.Neither? then Over(None) else if done then Over(Some((r.pkg, Lay(r.right)))) else On(r.pkg, Lay(r.right))
    ensures r.Both? ==> Alike(r.left, r.right) && Size(r.left) < Size(a)
  {
    StartsLay(a, '}');
    StartsLay(b, '}');
    if IsMark(a, '}') {
      RestAlike(a, b);
      return true, Both(p, a.rest, b.rest);
    }
    SkipLay(a);
    SkipLay(b);
    BareAlike(a, b);
    r := MemberAlike(Bare(a), Bare(b), p);
    done := true;
    if r.Neither? { return; }
    var q, a', b' := r.pkg, r.left, r.right;
    SkipLay(a');
    SkipLay(b');
    StartsLay(a', ',');
    StartsLay(b', ',');
    StartsLay(a', '}');
    StartsLay(b', '}');
    if IsMark(a', ',') || IsMark(a', '}') {
      RestAlike(a', b');
      done, r := IsMark(a', '}'), Both(q, a'.rest, b'.rest);
    } else {
      BareAlike(a', b');
      done, r := false, Both(q, Bare(a'), Bare(b'));
    }
  }

  lemma EndAlike(a: Layout, b: Layout)
    requires Alike(a, b)
    ensures Lay(a).End? <==> Lay(b).End?
  {
  }

  lemma {:induction false} MembersAlike(a: Layout, b: Layout, p: Pkg) returns (r: Two)
    requires Alike(a, b)
    ensures Members(Lay(a), p) == if r.Both? then Some((r.pkg, Lay(r.left))) else None
    ensures Members(Lay(b), p) == if r.Both? then Some((r.pkg, Lay(r.right))) else None
    ensures r.Both? ==> Alike(r.left, r.right) && Size(r.left) <= Size(a)
    decreases Size(a)
  {
    EndAlike(a, b);
    if Lay(a).End? { return Both(p, a, b); }
    var done;
    done, r := TurnAlike(a, b, p);
    if r.Both? && !done {
      r := MembersAlike(r.left, r.right, r.pkg);
    }
  }

  lemma ObjectAlike(a: Layout, b: Layout) returns (r: Two)
    requires Alike(a, b)
    ensures Object(Lay(a)) == if r.Both? then Some((r.pkg, Lay(r.left))) else None
    ensures Object(Lay(b)) == if r.Both? then Some((r.pkg, Lay(r.right))) else None
    ensures r.Both? ==> Alike(r.left, r.right) && Size(r.left) < Size(a)
  {
    r := Neither;
    ExpectLay(a, '{');
    ExpectLay(b, '{');
    if !IsMark(a, '{') { return; }
    RestAlike(a, b);
    r := MembersAlike(a.rest, b.rest, Pkg("", "", ""));
  }

  lemma {:induction false} ObjectsAlike(a: Layout, b: Layout, max: nat, acc: seq<Pkg>)
    requires Alike(a, b)
    ensures Objects(Lay(a), max, acc) == Objects(Lay(b), max, acc)
    decreases Size(a)
  {
    EndAlike(a, b);
    if Lay(a).Ch? && |acc| < max {
      var r := ObjectAlike(a, b);
      if r.Both? {
        var q, a', b' := r.pkg, r.left, r.right;
        SkipLay(a');
        SkipLay(b');
        StartsLay(a', ',');
        StartsLay(b', ',');
        StartsLay(a', ']');
        StartsLay(b', ']');
        if IsMark(a', ',') {
          RestAlike(a', b');
          ObjectsAlike(a'.rest, b'.rest, max, acc + [q]);
        } else if !IsMark(a', ']') {
          BareAlike(a', b');
          ObjectsAlike(Bare(a'), Bare(b'), max, acc + [q]);
        }
      }
    }
  }

  /** Whatever white space stands between the tokens, the parser gives the same list, or none. */
  lemma {:induction false} ParseAlike(a: Layout, b: Layout, max: int)
    requires Alike(a, b)
    ensures Parse(Lay(a), max) == Parse(Lay(b), max)
  {
    ExpectLay(a, '[');
    ExpectLay(b, '[');
    if IsMark(a, '[') && max > 0 {
      RestAlike(a, b);
      SkipLay(a.rest);
      SkipLay(b.rest);
      StartsLay(a.rest, ']');
      StartsLay(b.rest, ']');
      BareAlike(a.rest, b.rest);
      if !IsMark(a.rest, ']') {
        ObjectsAlike(Bare(a.rest), Bare(b.rest), max, []);
      }
    }
  }

  // ---------------------------------------------------------------- a printed manifest

  function PieceOf(c: char): Piece {
    var e := Escape(c);
    if |e| == 2 then Esc(e[1]) else Plain(c)
  }

  function PiecesOf(s: seq<char>): (r: seq<Piece>)
    ensures |r| == |s| && forall i | 0 <= i < |s| :: r[i] == PieceOf(s[i])
  {
    if s == [] then [] else [PieceOf(s[0])] + PiecesOf(s[1..])
  }

  function String(s: seq<char>): Item { Quoted(PiecesOf(s)) }

  lemma {:induction false} PiecesBack(s: seq<char>, k: Text)
    ensures PiecesText(PiecesOf(s), k) == Onto(Escaped(s), k)
  {
    if s != [] {
      PiecesBack(s[1..], k);
      OntoAppend(Escape(s[0]), Escaped(s[1..]), k);
      assert PiecesOf(s)[1..] == PiecesOf(s[1..]);
    }
  }

  lemma StringOk(s: seq<char>)
    ensures ItemOk(String(s))
  {
  }

  function Pair(key: seq<char>, v: seq<char>, rest: Layout): Layout {
    Then([], String(key), Then([], Mark(':'), Then([], String(v), rest)))
  }

  lemma {:induction false} NextLay(x: Item, rest: Layout)
    ensures Lay(Then([], x, rest)) == ItemText(x, Lay(rest))
    ensures Ok(Then([], x, rest)) <==> ItemOk(x) && Ok(rest)
  {
  }

  lemma StringText(s: seq<char>, k: Text)
    ensures ItemText(String(s), k) == Ch('"', Onto(Escaped(s), Ch('"', k))) && ItemOk(String(s))
  {
    PiecesBack(s, Ch('"', k));
    StringOk(s);
  }

  lemma {:induction false} PairLay(key: seq<char>, v: seq<char>, rest: Layout)
    requires Simple(key)
    ensures Lay(Pair(key, v, rest)) == Onto(Field(key, v), Lay(rest))
    ensures Ok(Pair(key, v, rest)) <==> Ok(rest)
  {
    var r2 := Then([], String(v), rest);
    var r1 := Then([], Mark(':'), r2);
    NextLay(String(v), rest);
    NextLay(Mark(':'), r2);
    NextLay(String(key), r1);
    StringText(v, Lay(rest));
    StringText(key, Lay(r1));
    SimpleEscaped(key);
    FieldOnto(key, v, Lay(rest));
  }

  lemma {:induction false} MarkedPairLay(c: char, key: seq<char>, v: seq<char>, rest: Layout)
    requires Simple(key) && ItemOk(Mark(c))
    ensures Lay(Then([], Mark(c), Pair(key, v, rest))) == Ch(c, Onto(Field(key, v), Lay(rest)))
    ensures Ok(Then([], Mark(c), Pair(key, v, rest))) <==> Ok(rest)
  {
    NextLay(Mark(c), Pair(key, v, rest));
    PairLay(key, v, rest);
  }

  /** Three members and the closing brace. */
  function Three(k1: seq<char>, v1: seq<char>, k2: seq<char>, v2: seq<char>, k3: seq<char>, v3: seq<char>, rest: Layout): Layout {
    Pair(k1, v1, Then([], Mark(','), Pair(k2, v2, Then([], Mark(','), Pair(k3, v3, Then([], Mark('}'), rest))))))
  }

  lemma {:induction false} ThreeLay(k1: seq<char>, v1: seq<char>, k2: seq<char>, v2: seq<char>, k3: seq<char>, v3: seq<char>, rest: Layout)
    requires Simple(k1) && Simple(k2) && Simple(k3)
    ensures Lay(Three(k1, v1, k2, v2, k3, v3, rest)) == ThreeFields(k1, v1, k2, v2, k3, v3, Lay(rest))
    ensures Ok(Three(k1, v1, k2, v2, k3, v3, rest)) <==> Ok(rest)
  {
    var r3 := Then([], Mark('}'), rest);
    var r2 := Then([], Mark(','), Pair(k3, v3, r3));
    var r1 := Then([], Mark(','), Pair(k2, v2, r2));
    NextLay(Mark('}'), rest);
    MarkedPairLay(',', k3, v3, r3);
    MarkedPairLay(',', k2, v2, r2);
    PairLay(k1, v1, r1);
  }

  /** The members of a package and its closing brace. */
  function Fields(p: Pkg, rest: Layout): Layout {
    Three("name", p.name, "version", p.version, "installPath", p.path, rest)
  }

  lemma {:induction false} FieldsLay(p: Pkg, rest: Layout)
    requires Ok(rest)
    ensures Lay(Fields(p, rest)) == Inside(p, Lay(rest)) && Ok(Fields(p, rest))
  {
    ThreeLay("name", p.name, "version", p.version, "installPath", p.path, rest);
  }

  /** A package, with white space before it and the rest behind it. */
  function Packed(gap: seq<char>, p: Pkg, rest: Layout): Layout { Then(gap, Mark('{'), Fields(p, rest)) }

  lemma {:induction false} PackedLay(gap: seq<char>, p: Pkg, rest: Layout)
    requires White(gap) && Ok(rest)
    ensures Lay(Packed(gap, p, rest)) == Onto(gap, Ch('{', Inside(p, Lay(rest)))) && Ok(Packed(gap, p, rest))
  {
    FieldsLay(p, rest);
  }

  /** What follows package `i` of a printed list. */
  function After(pkgs: seq<Pkg>, i: nat): Layout
    requires i < |pkgs|
    decreases |pkgs| - i
  {
    if i + 1 < |pkgs| then Then([], Mark(','), Packed("\n  ", pkgs[i + 1], After(pkgs, i + 1))) else CLOSED
  }

  const CLOSED: Layout := Then("\n", Mark(']'), Tail("\n"))

  lemma OntoGap(k: Text)
    ensures Onto("\n  ", k) == Ch('\n', Ch(' ', Ch(' ', k))) && Onto("\n", k) == Ch('\n', k) && White("\n  ") && White("\n")
  {
    OntoThree('\n', ' ', ' ', k);
    OntoOne('\n', k);
  }

  lemma ClosedLay()
    ensures Lay(CLOSED) == Ch('\n', CLOSE) && Ok(CLOSED)
  {
    OntoGap(End);
    OntoGap(CLOSE);
    assert Lay(Tail("\n")) == Ch('\n', End);
  }

  lemma {:induction false} AfterLay(pkgs: seq<Pkg>, i: nat)
    requires i < |pkgs|
    ensures Lay(After(pkgs, i)) == Following(pkgs, i) && Ok(After(pkgs, i))
    decreases |pkgs| - i
  {
    if i + 1 < |pkgs| {
      AfterLay(pkgs, i + 1);
      HeadOf(pkgs, i + 1);
      OntoGap(Ch('{', Inside(pkgs[i + 1], Following(pkgs, i + 1))));
      PackedLay("\n  ", pkgs[i + 1], After(pkgs, i + 1));
      NextLay(Mark(','), Packed("\n  ", pkgs[i + 1], After(pkgs, i + 1)));
    } else {
      ClosedLay();
    }
  }

  /** The tokens of the printed list, with the white space the printer puts between them. */
  function Manifest(pkgs: seq<Pkg>): Layout {
    Then([], Mark('['), if pkgs == [] then CLOSED else Packed("\n  ", pkgs[0], After(pkgs, 0)))
  }

  lemma {:induction false} ManifestLay(pkgs: seq<Pkg>)
    ensures Lay(Manifest(pkgs)) == Onto(Render(pkgs), End) && Ok(Manifest(pkgs))
  {
    RenderOnto(pkgs);
    if pkgs == [] {
      NextLay(Mark('['), CLOSED);
      ClosedLay();
      assert Onto(PrintedFrom(pkgs, 0), CLOSE) == CLOSE;
    } else {
      HeadOf(pkgs, 0);
      OntoGap(Ch('{', Inside(pkgs[0], Following(pkgs, 0))));
      AfterLay(pkgs, 0);
      PackedLay("\n  ", pkgs[0], After(pkgs, 0));
      NextLay(Mark('['), Packed("\n  ", pkgs[0], After(pkgs, 0)));
    }
  }

  /** A printed manifest may be spaced in any way: its packages are read back. */
  lemma SpacedBack(pkgs: seq<Pkg>, l: Layout, max: int)
    requires Ok(l) && Same(Manifest(pkgs), l)
    ensures Parse(Lay(l), max) == if max > 0 && |pkgs| <= max then Some(CutFrom(pkgs, 0)) else None
  {
    ManifestLay(pkgs);
    ParseAlike(Manifest(pkgs), l, max);
    ParseRender(pkgs, max);
  }

  // ---------------------------------------------------------------- as characters

  function PiecesChars(s: seq<Piece>): seq<char> {
    if s == [] then [] else PieceChars(s[0]) + PiecesChars(s[1..])
  }

  function ItemChars(x: Item): seq<char> {
    match x case Mark(c) => [c] case Quoted(s) => "\"" + PiecesChars(s) + "\""
  }

  function Chars(l: Layout): seq<char> {
    if l.Tail? then l.gap else l.gap + ItemChars(l.item) + Chars(l.rest)
  }

  lemma {:induction false} PiecesCharsText(s: seq<Piece>, k: Text)
    ensures Onto(PiecesChars(s), k) == PiecesText(s, k)
  {
    if s != [] {
      PiecesCharsText(s[1..], k);
      OntoAppend(PieceChars(s[0]), PiecesChars(s[1..]), k);
    }
  }

  lemma {:induction false} ItemCharsText(x: Item, k: Text)
    ensures Onto(ItemChars(x), k) == ItemText(x, k)
  {
    match x
    case Mark(c) => OntoOne(c, k);
    case Quoted(s) =>
      OntoAppend("\"" + PiecesChars(s), "\"", k);
      OntoAppend("\"", PiecesChars(s), Ch('"', k));
      OntoOne('"', k);
      PiecesCharsText(s, Ch('"', k));
      OntoOne('"', PiecesText(s, Ch('"', k)));
  }

  lemma {:induction false} CharsLay(l: Layout)
    ensures Onto(Chars(l), End) == Lay(l)
  {
    if l.Then? {
      CharsLay(l.rest);
      OntoAppend(l.gap + ItemChars(l.item), Chars(l.rest), End);
      OntoAppend(l.gap, ItemChars(l.item), Lay(l.rest));
      ItemCharsText(l.item, Lay(l.rest));
    }
  }

  /** The parser on a printed manifest with other white space. */
  method ParseSpaced(t: seq<char>, max: int, ghost pkgs: seq<Pkg>, ghost l: Layout) returns (ok: bool, back: seq<Pkg>)
    requires t == Chars(l) && Ok(l) && Same(Manifest(pkgs), l)
    ensures ok <==> max > 0 && |pkgs| <= max
    ensures ok ==> back == CutFrom(pkgs, 0)
  {
    CharsLay(l);
    AtIsOnto(t, 0);
    assert t[0..] == t;
    SpacedBack(pkgs, l, max);
    ok, back := ParseManifest(t, max);
  }

  // ---------------------------------------------------------------- escapes and keys

  const ESCAPES: string := "\"\\nrt"
  const MEANT: string := "\"\\\n\r\t"

  /** The escapes of section 7 of RFC 8259 that the parser knows; any other is an error. */
  lemma {:induction false} Unescapes(e: char)
    ensures e !in ESCAPES ==> Unescape(e) == None
    ensures forall i | 0 <= i < 5 :: Unescape(ESCAPES[i]) == Some(MEANT[i])
    ensures |ESCAPES| == |MEANT| == 5
  {
    assert ESCAPES[0] == '"' && ESCAPES[1] == '\\' && ESCAPES[2] == 'n' && ESCAPES[3] == 'r' && ESCAPES[4] == 't';
  }

  /** The printer escapes a quote, a backslash and a line feed, each so that it is read back; a string needs no more. */
  lemma {:induction false} Escapes(c: char)
    ensures c == '"' || c == '\\' || c == '\n' <==> Escape(c) != [c]
    ensures Escape(c) != [c] ==> |Escape(c)| == 2 && Escape(c)[0] == '\\' && Unescape(Escape(c)[1]) == Some(c)
  {
  }

  const UPPER: string := "ABCDEFGHIJKLMNOPQRSTUVWXYZ"
  const LOWER: string := "abcdefghijklmnopqrstuvwxyz"

  /** The same letter, in either case. */
  predicate SameLetter(c: char, d: char) {
    exists i :: 0 <= i < 26 && InCase(c, i) && InCase(d, i)
  }

  predicate InCase(c: char, i: nat)
    requires i < 26
  {
    c == UPPER[i] || c == LOWER[i]
  }

  lemma LetterAt(i: nat)
    requires i < 26
    ensures UPPER[i] as int == 65 + i && LOWER[i] as int == 97 + i
  {
  }

  lemma LowerIs(c: char)
    ensures Lower(c) as int == if 65 <= c as int <= 90 then c as int + 32 else c as int
  {
  }

  lemma CaseOnly(c: char, d: char)
    ensures Lower(c) == Lower(d) <==> c == d || SameLetter(c, d)
  {
    LowerIs(c);
    LowerIs(d);
    if Lower(c) == Lower(d) && c != d {
      var i := Lower(c) as int - 97;
      LetterAt(i);
      assert InCase(c, i) && InCase(d, i);
    } else if SameLetter(c, d) {
      var i :| 0 <= i < 26 && InCase(c, i) && InCase(d, i);
      LetterAt(i);
    }
  }

  /** Keys are told apart by everything but the case of their letters. */
  lemma KeyCase(a: CString, b: CString)
    ensures KeyEq(a, b) <==> |a| == |b| && forall i | 0 <= i < |a| :: a[i] == b[i] || SameLetter(a[i], b[i])
  {
    if |a| == |b| {
      forall i | 0 <= i < |a|
        ensures Lower(a[i]) == Lower(b[i]) <==> a[i] == b[i] || SameLetter(a[i], b[i])
      {
        CaseOnly(a[i], b[i]);
      }
    }
  }

  /** A key decides the same whatever the case it is written in. */
  lemma KeysAlike(p: Pkg, a: CString, b: CString, v: CString)
    requires KeyEq(a, b)
    ensures With(p, a, v) == With(p, b, v) && CapFor(a) == CapFor(b)
  {
    KeyVia(a, b, "name");
    KeyVia(a, b, "version");
    KeyVia(a, b, "installPath");
    KeyVia(a, b, "installpath");
  }

  lemma KeyVia(a: CString, b: CString, k: CString)
    requires KeyEq(a, b)
    ensures KeyEq(a, k) <==> KeyEq(b, k)
  {
  }

  lemma MemberAnyCase(key: CString, written: CString, v: CString, p: Pkg, k: Text)
    requires KeyEq(key, written) && Simple(written) && |written| < KEY_CAP
    ensures Member(Onto(Field(written, v), k), p) == Some((With(p, key, Cut(v, CapFor(key))), k))
  {
    MemberBack(written, v, p, k);
    KeysAlike(p, key, written, Cut(v, CapFor(key)));
  }

  /** A text that stops inside an object is accepted, unless white space follows: the end is only looked for right after a token. */
  lemma Unclosed()
    ensures Parse(Lay(Then([], Mark('['), Then([], Mark('{'), Tail([])))), 1) == Some([Pkg("", "", "")])
    ensures Parse(Lay(Then([], Mark('['), Then([], Mark('{'), Tail(" ")))), 1) == None
  {
    var a, b := Then([], Mark('{'), Tail([])), Then([], Mark('{'), Tail(" "));
    NextLay(Mark('{'), Tail([]));
    NextLay(Mark('{'), Tail(" "));
    NextLay(Mark('['), a);
    NextLay(Mark('['), b);
    OntoOne(' ', End);
    assert Lay(Tail([])) == End && Lay(Tail(" ")) == Ch(' ', End);
    assert Skip(Ch(' ', End)) == End;
    assert Object(Ch('{', End)) == Some((Pkg("", "", ""), End));
    assert Object(Ch('{', Ch(' ', End))) == None;
    assert [] + [Pkg("", "", "")] == [Pkg("", "", "")];
  }
}
