/** Parsing what was printed gives the packages back. */
module JsonRoundTrip {
  import opened Basics
  import opened JsonSpec

  /** `s` and then `k`. */
  function Onto(s: seq<char>, k: Text): Text {
    if s == [] then k else Ch(s[0], Onto(s[1..], k))
  }

  lemma {:induction false} OntoAppend(a: seq<char>, b: seq<char>, k: Text)
    ensures Onto(a + b, k) == Onto(a, Onto(b, k))
  {
    if a == [] {
      assert a + b == b;
    } else {
      OntoAppend(a[1..], b, k);
      assert (a + b)[1..] == a[1..] + b;
    }
  }

  lemma {:induction false} OntoOne(c: char, k: Text)
    ensures Onto([c], k) == Ch(c, k)
  {
    assert [c][1..] == [];
  }

  lemma {:induction false} OntoTwo(c: char, d: char, k: Text)
    ensures Onto([c, d], k) == Ch(c, Ch(d, k))
  {
    assert [c, d] == [c] + [d];
    OntoAppend([c], [d], k);
    OntoOne(d, k);
    OntoOne(c, Ch(d, k));
  }

  lemma {:induction false} OntoThree(c: char, d: char, e: char, k: Text)
    ensures Onto([c, d, e], k) == Ch(c, Ch(d, Ch(e, k)))
  {
    assert [c, d, e] == [c] + [d, e];
    OntoAppend([c], [d, e], k);
    OntoTwo(d, e, k);
    OntoOne(c, Ch(d, Ch(e, k)));
  }

  // ---------------------------------------------------------------- one string

  /** What a buffer of `cap` bytes holds after `acc` and then `s`. */
  function Filled(acc: seq<char>, s: seq<char>, cap: nat): seq<char>
    decreases |s|
  {
    if s == [] then acc else Filled(Store(acc, s[0], cap), s[1..], cap)
  }

  lemma {:induction false} EscapeBack(c: char, cap: nat, acc: seq<char>, k: Text)
    ensures Body(Onto(Escape(c), k), cap, acc) == Body(k, cap, Store(acc, c, cap))
  {
    if c == '"' || c == '\\' {
      OntoTwo('\\', c, k);
    } else if c == '\n' {
      OntoTwo('\\', 'n', k);
    } else {
      OntoOne(c, k);
    }
  }

  /** An escaped string reads back, as far as the buffer holds it. */
  lemma {:induction false} StringBack(s: seq<char>, cap: nat, acc: seq<char>, k: Text)
    ensures Body(Onto(Escaped(s), Ch('"', k)), cap, acc) == Some((Filled(acc, s, cap), k))
    decreases |s|
  {
    if s != [] {
      OntoAppend(Escape(s[0]), Escaped(s[1..]), Ch('"', k));
      EscapeBack(s[0], cap, acc, Onto(Escaped(s[1..]), Ch('"', k)));
      StringBack(s[1..], cap, Store(acc, s[0], cap), k);
    }
  }

  /** The first `cap - 1` characters. */
  function Cut(s: seq<char>, cap: nat): seq<char> {
    if |s| + 1 <= cap then s else if cap == 0 then [] else s[..cap - 1]
  }

  lemma {:induction false} FilledIs(acc: seq<char>, s: seq<char>, cap: nat)
    requires |acc| < cap
    ensures Filled(acc, s, cap) == Cut(acc + s, cap)
    decreases |s|
  {
    if s == [] {
      assert acc + s == acc;
    } else {
      FilledIs(Store(acc, s[0], cap), s[1..], cap);
      if |acc| + 1 < cap {
        assert acc + [s[0]] + s[1..] == acc + s;
      } else {
        assert Cut(acc + s[1..], cap) == acc == Cut(acc + s, cap);
      }
    }
  }

  lemma {:induction false} NoNul(s: CString)
    ensures UpToNul(s) == s
    decreases |s|
  {
    if s != [] {
      NoNul(s[1..]);
    }
  }

  predicate Simple(s: seq<char>) {
    forall i | 0 <= i < |s| :: s[i] != '"' && s[i] != '\\' && s[i] != '\n'
  }

  lemma {:induction false} SimpleEscaped(s: seq<char>)
    requires Simple(s)
    ensures Escaped(s) == s
    decreases |s|
  {
    if s != [] {
      SimpleEscaped(s[1..]);
    }
  }

  // ---------------------------------------------------------------- one member

  lemma {:induction false} FieldOnto(key: seq<char>, v: seq<char>, k: Text)
    ensures Onto(Field(key, v), k) == Ch('"', Onto(key, Ch('"', Ch(':', Ch('"', Onto(Escaped(v), Ch('"', k)))))))
  {
    OntoAppend("\"" + key + "\":\"" + Escaped(v), "\"", k);
    OntoOne('"', k);
    var k1 := Ch('"', k);
    OntoAppend("\"" + key + "\":\"", Escaped(v), k1);
    var k2 := Onto(Escaped(v), k1);
    OntoAppend("\"" + key, "\":\"", k2);
    assert "\":\"" == ['"', ':', '"'];
    OntoThree('"', ':', '"', k2);
    var k3 := Onto("\":\"", k2);
    OntoAppend("\"", key, k3);
    OntoOne('"', Onto(key, k3));
  }

  lemma {:induction false} QuotedBack(s: seq<char>, cap: nat, k: Text)
    requires cap > 0
    ensures Str(Ch('"', Onto(Escaped(s), Ch('"', k))), cap) == Some((Cut(s, cap), k))
  {
    StringBack(s, cap, [], k);
    FilledIs([], s, cap);
    assert [] + s == s;
  }

  lemma {:induction false} MemberBack(key: CString, v: CString, p: Pkg, k: Text)
    requires Simple(key) && |key| < KEY_CAP
    ensures Member(Onto(Field(key, v), k), p) == Some((With(p, key, Cut(v, CapFor(key))), k))
  {
    FieldOnto(key, v, k);
    SimpleEscaped(key);
    var k1 := Ch('"', Onto(Escaped(v), Ch('"', k)));
    QuotedBack(key, KEY_CAP, Ch(':', k1));
    NoNul(key);
    QuotedBack(v, CapFor(key), k);
    NoNul(Cut(v, CapFor(key)));
  }

  // ---------------------------------------------------------------- one object

  lemma {:induction false} FieldStarts(key: seq<char>, v: seq<char>, k: Text)
    ensures Starts(Onto(Field(key, v), k), '"') && Skip(Onto(Field(key, v), k)) == Onto(Field(key, v), k)
  {
    FieldOnto(key, v, k);
  }

  lemma {:induction false} OneOfMany(key: CString, v: CString, p: Pkg, rest: Text)
    requires Simple(key) && |key| < KEY_CAP
    ensures Members(Onto(Field(key, v), Ch(',', rest)), p) == Members(rest, With(p, key, Cut(v, CapFor(key))))
  {
    FieldStarts(key, v, Ch(',', rest));
    MemberBack(key, v, p, Ch(',', rest));
  }

  lemma {:induction false} LastOne(key: CString, v: CString, p: Pkg, rest: Text)
    requires Simple(key) && |key| < KEY_CAP
    ensures Members(Onto(Field(key, v), Ch('}', rest)), p) == Some((With(p, key, Cut(v, CapFor(key))), rest))
  {
    FieldStarts(key, v, Ch('}', rest));
    MemberBack(key, v, p, Ch('}', rest));
  }

  /** A package as far as the fields of the record hold it. */
  function CutPkg(p: Pkg): Pkg {
    Pkg(Cut(p.name, NAME_CAP), Cut(p.version, VERSION_CAP), Cut(p.path, PATH_CAP))
  }

  /** The members of a printed package, with what follows. */
  function Inside(p: Pkg, k: Text): Text { ThreeFields("name", p.name, "version", p.version, "installPath", p.path, k) }

  function ThreeFields(k1: seq<char>, v1: seq<char>, k2: seq<char>, v2: seq<char>, k3: seq<char>, v3: seq<char>, k: Text): Text {
    Onto(Field(k1, v1), Ch(',', Onto(Field(k2, v2), Ch(',', Onto(Field(k3, v3), Ch('}', k))))))
  }

  lemma {:induction false} ThreeBack(k1: CString, v1: CString, k2: CString, v2: CString, k3: CString, v3: CString,
                                     p0: Pkg, p1: Pkg, p2: Pkg, p3: Pkg, k: Text)
    requires Simple(k1) && |k1| < KEY_CAP && Simple(k2) && |k2| < KEY_CAP && Simple(k3) && |k3| < KEY_CAP
    requires With(p0, k1, Cut(v1, CapFor(k1))) == p1 && With(p1, k2, Cut(v2, CapFor(k2))) == p2
    requires With(p2, k3, Cut(v3, CapFor(k3))) == p3
    ensures Members(ThreeFields(k1, v1, k2, v2, k3, v3, k), p0) == Some((p3, k))
  {
    var t3 := Onto(Field(k3, v3), Ch('}', k));
    var t2 := Onto(Field(k2, v2), Ch(',', t3));
    OneOfMany(k1, v1, p0, t2);
    OneOfMany(k2, v2, p1, t3);
    LastOne(k3, v3, p2, k);
  }

  /** The three keys the printer writes, as the parser takes them. */
  lemma {:induction false} Keys(p: Pkg, v: CString)
    ensures With(p, "name", v) == p.(name := v) && CapFor("name") == NAME_CAP
    ensures With(p, "version", v) == p.(version := v) && CapFor("version") == VERSION_CAP
    ensures With(p, "installPath", v) == p.(path := v) && CapFor("installPath") == PATH_CAP
  {
  }

  lemma {:induction false} MembersBack(p: Pkg, k: Text)
    ensures Members(Inside(p, k), Pkg("", "", "")) == Some((CutPkg(p), k))
  {
    var p0 := Pkg("", "", "");
    var p1 := p0.(name := Cut(p.name, NAME_CAP));
    var p2 := p1.(version := Cut(p.version, VERSION_CAP));
    Keys(p0, Cut(p.name, NAME_CAP));
    Keys(p1, Cut(p.version, VERSION_CAP));
    Keys(p2, Cut(p.path, PATH_CAP));
    ThreeBack("name", p.name, "version", p.version, "installPath", p.path, p0, p1, p2, CutPkg(p), k);
  }

  lemma {:induction false} PrintedOnto(p: Pkg, k: Text)
    ensures Onto(Printed(p), k) == Ch(' ', Ch(' ', Ch('{', Inside(p, k))))
  {
    var f1, f2, f3 := Field("name", p.name), Field("version", p.version), Field("installPath", p.path);
    OntoAppend("  {" + f1 + "," + f2 + "," + f3, "}", k);
    OntoOne('}', k);
    var k1 := Ch('}', k);
    OntoAppend("  {" + f1 + "," + f2 + ",", f3, k1);
    var k2 := Onto(f3, k1);
    OntoAppend("  {" + f1 + "," + f2, ",", k2);
    OntoOne(',', k2);
    var k3 := Ch(',', k2);
    OntoAppend("  {" + f1 + ",", f2, k3);
    var k4 := Onto(f2, k3);
    OntoAppend("  {" + f1, ",", k4);
    OntoOne(',', k4);
    var k5 := Ch(',', k4);
    OntoAppend("  {", f1, k5);
    assert "  {" == [' ', ' ', '{'];
    OntoThree(' ', ' ', '{', Onto(f1, k5));
  }

  // ---------------------------------------------------------------- the whole list

  function CutFrom(pkgs: seq<Pkg>, i: nat): seq<Pkg>
    requires i <= |pkgs|
    decreases |pkgs| - i
  {
    if i == |pkgs| then [] else [CutPkg(pkgs[i])] + CutFrom(pkgs, i + 1)
  }

  const CLOSE: Text := Ch(']', Ch('\n', End))

  lemma {:induction false} ObjectBack(p: Pkg, k: Text, max: nat, acc: seq<Pkg>)
    requires |acc| < max
    ensures var u, acc' := Skip(k), acc + [CutPkg(p)];
            Objects(Ch(' ', Ch(' ', Ch('{', Inside(p, k)))), max, acc) ==
              if Starts(u, ',') then Objects(u.rest, max, acc') else if Starts(u, ']') then Some(acc') else Objects(u, max, acc')
  {
    MembersBack(p, k);
    var t := Ch(' ', Ch(' ', Ch('{', Inside(p, k))));
    assert Skip(t) == Skip(Ch(' ', Ch('{', Inside(p, k)))) == Ch('{', Inside(p, k));
    assert Expect(t, '{') == Some(Inside(p, k));
  }

  /** White space before an object makes no difference. */
  lemma {:induction false} SkippedFirst(t: Text, max: nat, acc: seq<Pkg>)
    requires t.Ch?
    ensures Objects(Ch('\n', t), max, acc) == Objects(t, max, acc)
  {
    assert Skip(Ch('\n', t)) == Skip(t);
  }

  /** What follows package `i`. */
  function Following(pkgs: seq<Pkg>, i: nat): Text
    requires i < |pkgs|
  {
    if i + 1 < |pkgs| then Ch(',', Ch('\n', Onto(PrintedFrom(pkgs, i + 1), CLOSE))) else Ch('\n', CLOSE)
  }

  lemma {:induction false} HeadOf(pkgs: seq<Pkg>, i: nat)
    requires i < |pkgs|
    ensures Onto(PrintedFrom(pkgs, i), CLOSE) == Ch(' ', Ch(' ', Ch('{', Inside(pkgs[i], Following(pkgs, i)))))
  {
    var p, more := pkgs[i], PrintedFrom(pkgs, i + 1);
    var sep := if i + 1 < |pkgs| then ",\n" else "\n";
    OntoAppend(Printed(p) + sep, more, CLOSE);
    OntoAppend(Printed(p), sep, Onto(more, CLOSE));
    if i + 1 < |pkgs| {
      OntoTwo(',', '\n', Onto(more, CLOSE));
    } else {
      OntoOne('\n', CLOSE);
    }
    PrintedOnto(p, Following(pkgs, i));
  }

  /** What is left of the list from package `i` on. */
  function Tail(pkgs: seq<Pkg>, i: nat): Text
    requires i < |pkgs|
  {
    Onto(PrintedFrom(pkgs, i), CLOSE)
  }

  /** Reading package `i` leaves the packages behind it, or the end of the list. */
  lemma {:induction false} ObjectThen(pkgs: seq<Pkg>, i: nat, max: nat, acc: seq<Pkg>)
    requires i < |pkgs| && |acc| < max
    ensures var acc' := acc + [CutPkg(pkgs[i])];
            Objects(Tail(pkgs, i), max, acc) == if i + 1 < |pkgs| then Objects(Tail(pkgs, i + 1), max, acc') else Some(acc')
  {
    var acc' := acc + [CutPkg(pkgs[i])];
    HeadOf(pkgs, i);
    ObjectBack(pkgs[i], Following(pkgs, i), max, acc);
    if i + 1 < |pkgs| {
      HeadOf(pkgs, i + 1);
      SkippedFirst(Tail(pkgs, i + 1), max, acc');
    } else {
      AtClose(acc');
    }
  }

  /** There is no room for package `i`. */
  lemma {:induction false} NoRoom(pkgs: seq<Pkg>, i: nat, max: nat, acc: seq<Pkg>)
    requires i < |pkgs| && max <= |acc|
    ensures Objects(Tail(pkgs, i), max, acc) == None
  {
    HeadOf(pkgs, i);
  }

  lemma {:induction false} CutStep(pkgs: seq<Pkg>, i: nat, acc: seq<Pkg>)
    requires i < |pkgs|
    ensures acc + [CutPkg(pkgs[i])] + CutFrom(pkgs, i + 1) == acc + CutFrom(pkgs, i)
  {
  }

  lemma {:induction false} ListBack(pkgs: seq<Pkg>, i: nat, max: nat, acc: seq<Pkg>)
    requires i < |pkgs|
    ensures Objects(Tail(pkgs, i), max, acc) ==
              if |acc| + |pkgs| - i <= max then Some(acc + CutFrom(pkgs, i)) else None
    decreases |pkgs| - i
  {
    if |acc| < max {
      var acc' := acc + [CutPkg(pkgs[i])];
      ObjectThen(pkgs, i, max, acc);
      CutStep(pkgs, i, acc);
      if i + 1 < |pkgs| {
        ListBack(pkgs, i + 1, max, acc');
      } else {
        AtClose(acc');
      }
    } else {
      NoRoom(pkgs, i, max, acc);
    }
  }

  lemma {:induction false} AtClose(acc: seq<Pkg>)
    ensures Skip(Ch('\n', CLOSE)) == CLOSE && Starts(CLOSE, ']') && acc + [] == acc
  {
  }

  lemma {:induction false} RenderOnto(pkgs: seq<Pkg>)
    ensures Onto(Render(pkgs), End) == Ch('[', Ch('\n', Onto(PrintedFrom(pkgs, 0), CLOSE)))
  {
    OntoAppend("[\n" + PrintedFrom(pkgs, 0), "]\n", End);
    OntoTwo(']', '\n', End);
    OntoAppend("[\n", PrintedFrom(pkgs, 0), CLOSE);
    OntoTwo('[', '\n', Onto(PrintedFrom(pkgs, 0), CLOSE));
  }

  lemma {:induction false} SkipTwice(t: Text)
    ensures Skip(Skip(t)) == Skip(t)
  {
    if t.Ch? && IsWs(t.c) {
      SkipTwice(t.rest);
    }
  }

  lemma {:induction false} FirstObject(pkgs: seq<Pkg>, max: nat)
    requires pkgs != []
    ensures var t := Onto(PrintedFrom(pkgs, 0), CLOSE);
            Starts(Skip(t), '{') && Objects(Skip(t), max, []) == Objects(t, max, [])
  {
    var t := Onto(PrintedFrom(pkgs, 0), CLOSE);
    HeadOf(pkgs, 0);
    SkipTwice(t);
    assert Skip(t) == Skip(t.rest) == t.rest.rest;
  }

  /** What is printed is read back, field by field, as far as the fields hold it, if there is room for all packages. */
  lemma {:induction false} ParseRender(pkgs: seq<Pkg>, max: int)
    ensures Parse(Onto(Render(pkgs), End), max) ==
              if max > 0 && |pkgs| <= max then Some(CutFrom(pkgs, 0)) else None
  {
    RenderOnto(pkgs);
    if max > 0 {
      if pkgs == [] {
        assert Onto(PrintedFrom(pkgs, 0), CLOSE) == CLOSE;
      } else {
        ListBack(pkgs, 0, max, []);
        assert [] + CutFrom(pkgs, 0) == CutFrom(pkgs, 0);
        FirstObject(pkgs, max);
      }
    }
  }

  predicate Fits(p: Pkg) { |p.name| < NAME_CAP && |p.version| < VERSION_CAP && |p.path| < PATH_CAP }

  lemma {:induction false} CutNone(pkgs: seq<Pkg>, i: nat)
    requires i <= |pkgs|
    ensures CutFrom(pkgs, i) == pkgs[i..] <==> forall j | i <= j < |pkgs| :: Fits(pkgs[j])
    decreases |pkgs| - i
  {
    if i < |pkgs| {
      CutNone(pkgs, i + 1);
      assert CutPkg(pkgs[i]) == pkgs[i] <==> Fits(pkgs[i]);
      assert pkgs[i..] == [pkgs[i]] + pkgs[i + 1..];
      assert CutFrom(pkgs, i)[1..] == CutFrom(pkgs, i + 1) && pkgs[i..][1..] == pkgs[i + 1..];
    }
  }

  /** The round trip gives the same packages exactly when they fit their fields and the caller has room for them. */
  lemma {:induction false} RoundTrip(pkgs: seq<Pkg>, max: int)
    ensures Parse(Onto(Render(pkgs), End), max) == Some(pkgs) <==>
              max > 0 && |pkgs| <= max && forall j | 0 <= j < |pkgs| :: Fits(pkgs[j])
  {
    ParseRender(pkgs, max);
    CutNone(pkgs, 0);
    assert pkgs[0..] == pkgs;
  }

  /** A name of 64 bytes, one more than a field of a package holds before its NUL: printed whole, it comes back with 63. */
  lemma {:induction false} NameTooLong(name: CString)
    requires |name| == NAME_CAP
    ensures Parse(Onto(Render([Pkg(name, "", "")]), End), 1) == Some([Pkg(name[..NAME_CAP - 1], "", "")])
  {
    var p := Pkg(name, "", "");
    ParseRender([p], 1);
    assert CutFrom([p], 0) == [CutPkg(p)];
  }
}
