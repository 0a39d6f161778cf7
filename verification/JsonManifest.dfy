/** The manifest parser and printer: a cursor over the text, an output buffer that fills up. */
module JsonManifest {
  import opened Basics
  import opened JsonSpec
  import opened JsonRoundTrip

  /** The text from position `p` on. */
  function At(t: seq<char>, p: nat): Text
    decreases |t| - p
  {
    if p >= |t| then End else Ch(t[p], At(t, p + 1))
  }

  lemma {:induction false} AtIsOnto(t: seq<char>, p: nat)
    requires p <= |t|
    ensures At(t, p) == Onto(t[p..], End)
    decreases |t| - p
  {
    if p < |t| {
      AtIsOnto(t, p + 1);
      assert t[p..][1..] == t[p + 1..];
    }
  }

  // ---------------------------------------------------------------- parsing

  method SkipWs(t: seq<char>, p: nat) returns (q: nat)
    requires p <= |t|
    ensures p <= q <= |t| && At(t, q) == Skip(At(t, p))
    ensures forall i | p <= i < q :: t[i] == ' ' || t[i] == '\n' || t[i] == '\r' || t[i] == '\t'
    ensures q < |t| ==> t[q] != ' ' && t[q] != '\n' && t[q] != '\r' && t[q] != '\t'
  {
    q := p;
    while q < |t|
      invariant p <= q <= |t| && Skip(At(t, q)) == Skip(At(t, p))
      invariant forall i | p <= i < q :: t[i] == ' ' || t[i] == '\n' || t[i] == '\r' || t[i] == '\t'
    {
      if IsWs(t[q]) { q := q + 1; } else { break; }
    }
  }

  method ExpectChar(t: seq<char>, p: nat, c: char) returns (ok: bool, q: nat)
    requires p <= |t|
    ensures p <= q <= |t| && Expect(At(t, p), c) == if ok then Some(At(t, q)) else None
    ensures ok ==> p < q && t[q - 1] == c && forall i | p <= i < q - 1 :: t[i] == ' ' || t[i] == '\n' || t[i] == '\r' || t[i] == '\t'
  {
    q := SkipWs(t, p);
    if q >= |t| || t[q] != c { return false, q; }
    return true, q + 1;
  }

  method ParseString(t: seq<char>, p: nat, cap: nat) returns (ok: bool, q: nat, out: seq<char>)
    requires p <= |t|
    ensures p <= q <= |t| && Str(At(t, p), cap) == if ok then Some((out, At(t, q))) else None
    ensures ok ==> p < q
  {
    out := [];
    q := SkipWs(t, p);
    if q >= |t| || t[q] != '"' { return false, q, out; }
    q := q + 1;
    while q < |t|
      invariant p < q <= |t|
      invariant Str(At(t, p), cap) == Body(At(t, q), cap, out)
    {
      var c := t[q];
      q := q + 1;
      if c == '"' { return true, q, out; }
      if c == '\\' {
        if q >= |t| { return false, q, out; }
        var e := t[q];
        q := q + 1;
        if Unescape(e).None? { return false, q, out; }
        c := Unescape(e).value;
      }
      out := Store(out, c, cap);
    }
    ok := true;
  }

  method ParseMember(t: seq<char>, p: nat, pkg: Pkg) returns (ok: bool, q: nat, pkg': Pkg)
    requires p <= |t|
    ensures p <= q <= |t| && Member(At(t, p), pkg) == if ok then Some((pkg', At(t, q))) else None
    ensures ok ==> p < q
  {
    var key, v;
    pkg' := pkg;
    ok, q, key := ParseString(t, p, KEY_CAP);
    if !ok { return; }
    ok, q := ExpectChar(t, q, ':');
    if !ok { return; }
    ok, q, v := ParseString(t, q, CapFor(UpToNul(key)));
    if !ok { return; }
    pkg' := With(pkg, UpToNul(key), UpToNul(v));
  }

  /** One turn of the loop over the members: the object ends, or is wrong, or the cursor moves on. */
  method ObjectStep(t: seq<char>, p: nat, pkg: Pkg) returns (done: bool, ok: bool, q: nat, pkg': Pkg)
    requires p < |t|
    ensures p <= q <= |t|
    ensures MemberTurn(At(t, p), pkg) ==
              if !done then On(pkg', At(t, q)) else Over(if ok then Some((pkg', At(t, q))) else None)
    ensures !done ==> p < q
  {
    q := SkipWs(t, p);
    if q < |t| && t[q] == '}' { return true, true, q + 1, pkg; }
    ok, q, pkg' := ParseMember(t, q, pkg);
    if !ok { return true, false, q, pkg'; }
    q := SkipWs(t, q);
    if q < |t| && t[q] == ',' { return false, true, q + 1, pkg'; }
    if q < |t| && t[q] == '}' { return true, true, q + 1, pkg'; }
    done := false;
  }

  /** The members of an object, after its opening brace. */
  method ParseObject(t: seq<char>, p: nat) returns (ok: bool, q: nat, pkg: Pkg)
    requires p <= |t|
    ensures p <= q <= |t| && Members(At(t, p), Pkg("", "", "")) == if ok then Some((pkg, At(t, q))) else None
  {
    pkg := Pkg("", "", "");
    q := p;
    while q < |t|
      invariant p <= q <= |t|
      invariant Members(At(t, p), Pkg("", "", "")) == Members(At(t, q), pkg)
      decreases |t| - q
    {
      var done;
      done, ok, q, pkg := ObjectStep(t, q, pkg);
      if done { return; }
    }
    ok := true;
  }

  method ParseBraced(t: seq<char>, p: nat) returns (ok: bool, q: nat, pkg: Pkg)
    requires p <= |t|
    ensures p <= q <= |t| && Object(At(t, p)) == if ok then Some((pkg, At(t, q))) else None
    ensures ok ==> p < q
  {
    pkg := Pkg("", "", "");
    ok, q := ExpectChar(t, p, '{');
    if !ok { return; }
    ok, q, pkg := ParseObject(t, q);
  }

  /** One turn of the loop over the objects. */
  method ListStep(t: seq<char>, p: nat, max: nat, pkgs: seq<Pkg>) returns (done: bool, ok: bool, q: nat, pkgs': seq<Pkg>)
    requires p < |t|
    ensures p <= q <= |t|
    ensures ObjectTurn(At(t, p), max, pkgs) ==
              if !done then On(pkgs', At(t, q)) else Over(if ok then Some(pkgs') else None)
    ensures !done ==> p < q
  {
    q, pkgs' := p, pkgs;
    if |pkgs| >= max { return true, false, q, pkgs'; }
    var pkg;
    ok, q, pkg := ParseBraced(t, p);
    if !ok { return true, false, q, pkgs'; }
    pkgs' := pkgs + [pkg];
    q := SkipWs(t, q);
    if q < |t| && t[q] == ',' { return false, true, q + 1, pkgs'; }
    if q < |t| && t[q] == ']' { return true, true, q, pkgs'; }
    done := false;
  }

  method ParseManifest(t: seq<char>, max: int) returns (ok: bool, pkgs: seq<Pkg>)
    ensures Parse(At(t, 0), max) == if ok then Some(pkgs) else None
  {
    pkgs := [];
    if max <= 0 { return false, pkgs; }
    var p;
    ok, p := ExpectChar(t, 0, '[');
    if !ok { return; }
    p := SkipWs(t, p);
    if p < |t| && t[p] == ']' { return true, pkgs; }
    while p < |t|
      invariant p <= |t|
      invariant Parse(At(t, 0), max) == Objects(At(t, p), max, pkgs)
      decreases |t| - p
    {
      var done;
      done, ok, p, pkgs := ListStep(t, p, max, pkgs);
      if done { return; }
    }
    ok := true;
  }

  // ---------------------------------------------------------------- printing

  /** Appends to a buffer of `cap` bytes, one of them for the NUL. */
  method AppendStr(out: seq<char>, cap: nat, s: seq<char>) returns (ok: bool, out': seq<char>)
    requires |out| < cap
    ensures ok <==> |out| + |s| < cap
    ensures ok ==> out' == out + s
  {
    out' := out;
    var i := 0;
    while i < |s|
      invariant 0 <= i <= |s| && out' == out + s[..i] && |out'| < cap
    {
      if |out'| + 1 >= cap { return false, out'; }
      out' := out' + [s[i]];
      i := i + 1;
    }
    ok := true;
  }

  method AppendEscaped(out: seq<char>, cap: nat, s: seq<char>) returns (ok: bool, out': seq<char>)
    requires |out| < cap
    ensures ok <==> |out| + |Escaped(s)| < cap
    ensures ok ==> out' == out + Escaped(s)
  {
    out' := out;
    var i := 0;
    while i < |s|
      invariant 0 <= i <= |s| && |out'| < cap
      invariant out + Escaped(s) == out' + Escaped(s[i..])
    {
      assert s[i..][1..] == s[i + 1..];
      var c := s[i];
      var e := Escape(c);
      assert out' + (e + Escaped(s[i + 1..])) == out' + e + Escaped(s[i + 1..]);
      if |out'| + |e| >= cap { return false, out'; }
      out' := out' + e;
      i := i + 1;
    }
    ok := true;
  }

  /** Text, and then an escaped value. */
  method AppendBoth(out: seq<char>, cap: nat, h: seq<char>, v: seq<char>) returns (ok: bool, out': seq<char>)
    requires |out| < cap
    ensures ok <==> |out| + |h| + |Escaped(v)| < cap
    ensures ok ==> out' == out + h + Escaped(v)
  {
    ok, out' := AppendStr(out, cap, h);
    if !ok { return; }
    ok, out' := AppendEscaped(out', cap, v);
  }

  lemma {:induction false} Flat(out: seq<char>, h: seq<char>, a: seq<char>, m: seq<char>, b: seq<char>, n: seq<char>, c: seq<char>, e: seq<char>)
    ensures out + h + a + m + b + n + c + e == out + (h + a + m + b + n + c + e)
  {
  }

  /** Three escaped values with the given text around them. */
  method AppendParts(out: seq<char>, cap: nat, h: seq<char>, a: seq<char>, m: seq<char>, b: seq<char>, n: seq<char>, c: seq<char>, e: seq<char>)
    returns (ok: bool, out': seq<char>)
    requires |out| < cap
    ensures ok <==> |out| + |Parts(h, a, m, b, n, c, e)| < cap
    ensures ok ==> out' == out + Parts(h, a, m, b, n, c, e)
  {
    Flat(out, h, Escaped(a), m, Escaped(b), n, Escaped(c), e);
    ok, out' := AppendBoth(out, cap, h, a);
    if !ok { return; }
    ok, out' := AppendBoth(out', cap, m, b);
    if !ok { return; }
    ok, out' := AppendBoth(out', cap, n, c);
    if !ok { return; }
    ok, out' := AppendStr(out', cap, e);
  }

  function Parts(h: seq<char>, a: seq<char>, m: seq<char>, b: seq<char>, n: seq<char>, c: seq<char>, e: seq<char>): seq<char> {
    h + Escaped(a) + m + Escaped(b) + n + Escaped(c) + e
  }

  /** One package. */
  method AppendPkg(out: seq<char>, cap: nat, p: Pkg) returns (ok: bool, out': seq<char>)
    requires |out| < cap
    ensures ok <==> |out| + |Printed(p)| < cap
    ensures ok ==> out' == out + Printed(p)
  {
    Pieces(p);
    ok, out' := AppendParts(out, cap, "  {\"name\":\"", p.name, "\",\"version\":\"", p.version, "\",\"installPath\":\"", p.path, "\"}");
  }

  lemma {:induction false} Mid(x: seq<char>, q: seq<char>, c: seq<char>, k: seq<char>, e: seq<char>, m: seq<char>)
    requires m == q + c + k
    ensures x + q + c + (k + e + q) == x + m + e + q
  {
  }

  lemma {:induction false} Regroup(o: seq<char>, q: seq<char>, c: seq<char>, close: seq<char>, k1: seq<char>, e1: seq<char>, k2: seq<char>,
                                   e2: seq<char>, k3: seq<char>, e3: seq<char>, h: seq<char>, m: seq<char>, n: seq<char>, e: seq<char>)
    requires h == o + k1 && m == q + c + k2 && n == q + c + k3 && e == q + close
    ensures o + (k1 + e1 + q) + c + (k2 + e2 + q) + c + (k3 + e3 + q) + close == h + e1 + m + e2 + n + e3 + e
  {
    assert o + (k1 + e1 + q) == h + e1 + q;
    Mid(h + e1, q, c, k2, e2, m);
    Mid(h + e1 + m + e2, q, c, k3, e3, n);
    assert h + e1 + m + e2 + n + e3 + q + close == h + e1 + m + e2 + n + e3 + (q + close);
  }

  lemma {:induction false} Pieces(p: Pkg)
    ensures Printed(p) == Parts("  {\"name\":\"", p.name, "\",\"version\":\"", p.version, "\",\"installPath\":\"", p.path, "\"}")
  {
    Regroup("  {", "\"", ",", "}", "\"" + "name" + "\":\"", Escaped(p.name), "\"" + "version" + "\":\"", Escaped(p.version),
            "\"" + "installPath" + "\":\"", Escaped(p.path), "  {\"name\":\"", "\",\"version\":\"", "\",\"installPath\":\"", "\"}");
  }

  /** A package and what separates it from the next. */
  method AppendItem(out: seq<char>, cap: nat, p: Pkg, sep: seq<char>) returns (ok: bool, out': seq<char>)
    requires |out| < cap
    ensures ok <==> |out| + |Printed(p) + sep| < cap
    ensures ok ==> out' == out + (Printed(p) + sep)
  {
    ok, out' := AppendPkg(out, cap, p);
    if !ok { return; }
    assert out' + sep == out + (Printed(p) + sep);
    ok, out' := AppendStr(out', cap, sep);
  }

  lemma NextItem(out: seq<char>, pkgs: seq<Pkg>, i: nat, sep: seq<char>)
    requires i < |pkgs| && sep == if i != |pkgs| - 1 then ",\n" else "\n"
    ensures out + PrintedFrom(pkgs, i) == out + (Printed(pkgs[i]) + sep) + PrintedFrom(pkgs, i + 1)
  {
    var item, more := Printed(pkgs[i]) + sep, PrintedFrom(pkgs, i + 1);
    assert out + (item + more) == out + item + more;
  }

  /** All packages, with what separates them. */
  method AppendFrom(out: seq<char>, cap: nat, pkgs: seq<Pkg>) returns (ok: bool, out': seq<char>)
    requires |out| < cap
    ensures ok <==> |out| + |PrintedFrom(pkgs, 0)| < cap
    ensures ok ==> out' == out + PrintedFrom(pkgs, 0)
  {
    out' := out;
    var i := 0;
    while i < |pkgs|
      invariant 0 <= i <= |pkgs| && |out'| < cap
      invariant out + PrintedFrom(pkgs, 0) == out' + PrintedFrom(pkgs, i)
    {
      var sep := if i != |pkgs| - 1 then ",\n" else "\n";
      NextItem(out', pkgs, i, sep);
      ok, out' := AppendItem(out', cap, pkgs[i], sep);
      if !ok { return; }
      i := i + 1;
    }
    ok := true;
  }

  /** The list between its brackets. */
  method AppendAll(cap: nat, open: seq<char>, pkgs: seq<Pkg>, close: seq<char>) returns (ok: bool, out: seq<char>)
    requires 0 < cap
    ensures ok <==> |open + PrintedFrom(pkgs, 0) + close| < cap
    ensures ok ==> out == open + PrintedFrom(pkgs, 0) + close
  {
    ok, out := AppendStr([], cap, open);
    if !ok { return; }
    assert [] + open == open;
    ok, out := AppendFrom(out, cap, pkgs);
    if !ok { return; }
    ok, out := AppendStr(out, cap, close);
  }

  method WriteManifest(pkgs: seq<Pkg>, cap: nat) returns (ok: bool, out: seq<char>)
    ensures ok <==> cap >= 4 && |Render(pkgs)| < cap
    ensures ok ==> out == Render(pkgs)
  {
    out := [];
    if cap < 4 { return false, out; }
    ok, out := AppendAll(cap, "[\n", pkgs, "]\n");
  }

  // ---------------------------------------------------------------- both

  /** Whatever fits the buffer and the records comes back as it was. */
  method WriteThenParse(pkgs: seq<Pkg>, cap: nat, max: int) returns (ok: bool, back: seq<Pkg>)
    ensures ok && (forall j | 0 <= j < |pkgs| :: Fits(pkgs[j])) ==> back == pkgs
    ensures ok <==> cap >= 4 && |Render(pkgs)| < cap && max > 0 && |pkgs| <= max
  {
    var out;
    back := [];
    ok, out := WriteManifest(pkgs, cap);
    if !ok { return; }
    ParseRender(pkgs, max);
    RoundTrip(pkgs, max);
    AtIsOnto(out, 0);
    assert out[0..] == out;
    ok, back := ParseManifest(out, max);
  }
}
