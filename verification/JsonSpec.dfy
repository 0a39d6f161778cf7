/** The package manifest as text: what the parser accepts and what the printer prints, as functions. */
module JsonSpec {
  import opened Basics

  /** Text from the cursor to the end. */
  datatype Text = End | Ch(c: char, rest: Text)

  function Len(t: Text): nat { if t.End? then 0 else 1 + Len(t.rest) }

  /** A C string: what stands before the NUL. */
  type CString = s: seq<char> | forall i | 0 <= i < |s| :: s[i] != '\0'

  function UpToNul(s: seq<char>): CString {
    if s == [] || s[0] == '\0' then [] else [s[0]] + UpToNul(s[1..])
  }

  datatype Pkg = Pkg(name: CString, version: CString, path: CString)

  const NAME_CAP: nat := 64
  const VERSION_CAP: nat := 32
  const PATH_CAP: nat := 256
  const KEY_CAP: nat := 64

  // ---------------------------------------------------------------- the parser

  predicate IsWs(c: char) { c == ' ' || c == '\n' || c == '\r' || c == '\t' }

  function Skip(t: Text): (r: Text)
    ensures Len(r) <= Len(t)
  {
    if t.Ch? && IsWs(t.c) then Skip(t.rest) else t
  }

  predicate Starts(t: Text, c: char) { t.Ch? && t.c == c }

  function Expect(t: Text, c: char): (r: Option<Text>)
    ensures r.Some? ==> Len(r.value) < Len(t)
  {
    var u := Skip(t);
    if Starts(u, c) then Some(u.rest) else None
  }

  /** The character an escape stands for. */
  function Unescape(e: char): Option<char> {
    if e == '"' then Some('"') else if e == '\\' then Some('\\') else if e == 'n' then Some('\n')
    else if e == 'r' then Some('\r') else if e == 't' then Some('\t') else None
  }

  /** One more character into a buffer of `cap` bytes, the last of which is for the NUL. */
  function Store(acc: seq<char>, c: char, cap: nat): seq<char> { if |acc| + 1 < cap then acc + [c] else acc }

  /** The characters of a string up to its closing quote, or to the end of the text. */
  function Body(t: Text, cap: nat, acc: seq<char>): (r: Option<(seq<char>, Text)>)
    ensures r.Some? ==> Len(r.value.1) <= Len(t)
  {
    if t.End? then Some((acc, t))
    else if t.c == '"' then Some((acc, t.rest))
    else if t.c != '\\' then Body(t.rest, cap, Store(acc, t.c, cap))
    else if t.rest.End? || Unescape(t.rest.c).None? then None
    else Body(t.rest.rest, cap, Store(acc, Unescape(t.rest.c).value, cap))
  }

  function Str(t: Text, cap: nat): (r: Option<(seq<char>, Text)>)
    ensures r.Some? ==> Len(r.value.1) < Len(t)
  {
    var u := Skip(t);
    if Starts(u, '"') then Body(u.rest, cap, []) else None
  }

  function Lower(c: char): char { if 'A' <= c <= 'Z' then c - 'A' + 'a' else c }

  /** Keys are compared without case. */
  predicate KeyEq(a: CString, b: CString) {
    |a| == |b| && forall i | 0 <= i < |a| :: Lower(a[i]) == Lower(b[i])
  }

  function CapFor(key: CString): nat {
    if KeyEq(key, "name") then NAME_CAP
    else if KeyEq(key, "version") then VERSION_CAP
    else PATH_CAP
  }

  function With(p: Pkg, key: CString, v: CString): Pkg {
    if KeyEq(key, "name") then p.(name := v)
    else if KeyEq(key, "version") then p.(version := v)
    else if KeyEq(key, "installPath") || KeyEq(key, "installpath") then p.(path := v)
    else p
  }

  /** One `"key": "value"`. */
  function Member(t: Text, p: Pkg): (r: Option<(Pkg, Text)>)
    ensures r.Some? ==> Len(r.value.1) < Len(t)
  {
    var key := Str(t, KEY_CAP);
    if key.None? then None else
    var after := Expect(key.value.1, ':');
    if after.None? then None else
    var k := UpToNul(key.value.0);
    var v := Str(after.value, CapFor(k));
    if v.None? then None else Some((With(p, k, UpToNul(v.value.0)), v.value.1))
  }

  /** One turn of a loop that reads the text: the loop ends with a result, or goes on. */
  datatype Turn<S, R> = Over(result: R) | On(state: S, rest: Text)

  /** One member of an object, or its closing brace; commas between members may be missing. */
  function MemberTurn(t: Text, p: Pkg): (r: Turn<Pkg, Option<(Pkg, Text)>>)
    requires t.Ch?
    ensures r.On? ==> Len(r.rest) < Len(t)
    ensures r.Over? && r.result.Some? ==> Len(r.result.value.1) <= Len(t)
  {
    var u := Skip(t);
    if Starts(u, '}') then Over(Some((p, u.rest))) else
    var m := Member(u, p);
    if m.None? then Over(None) else
    var v := Skip(m.value.1);
    if Starts(v, ',') then On(m.value.0, v.rest)
    else if Starts(v, '}') then Over(Some((m.value.0, v.rest)))
    else On(m.value.0, v)
  }

  /** The members of an object, after its opening brace. */
  function Members(t: Text, p: Pkg): (r: Option<(Pkg, Text)>)
    ensures r.Some? ==> Len(r.value.1) <= Len(t)
    decreases Len(t)
  {
    if t.End? then Some((p, t)) else
    match MemberTurn(t, p)
    case Over(r) => r
    case On(p', u) => Members(u, p')
  }

  /** One object, its opening brace included. */
  function Object(t: Text): (r: Option<(Pkg, Text)>)
    ensures r.Some? ==> Len(r.value.1) < Len(t)
  {
    var o := Expect(t, '{');
    if o.None? then None else Members(o.value, Pkg("", "", ""))
  }

  /** One object of the list, with what follows it. */
  function ObjectTurn(t: Text, max: nat, acc: seq<Pkg>): (r: Turn<seq<Pkg>, Option<seq<Pkg>>>)
    ensures r.On? ==> Len(r.rest) < Len(t)
  {
    if |acc| >= max then Over(None) else
    var m := Object(t);
    if m.None? then Over(None) else
    var u := Skip(m.value.1);
    var acc' := acc + [m.value.0];
    if Starts(u, ',') then On(acc', u.rest)
    else if Starts(u, ']') then Over(Some(acc'))
    else On(acc', u)
  }

  /** The objects of the list, after its opening bracket. */
  function Objects(t: Text, max: nat, acc: seq<Pkg>): Option<seq<Pkg>>
    decreases Len(t)
  {
    if t.End? then Some(acc) else
    match ObjectTurn(t, max, acc)
    case Over(r) => r
    case On(acc', u) => Objects(u, max, acc')
  }

  function Parse(t: Text, max: int): Option<seq<Pkg>> {
    if max <= 0 then None else
    var o := Expect(t, '[');
    if o.None? then None else
    var u := Skip(o.value);
    if Starts(u, ']') then Some([]) else Objects(u, max, [])
  }

  // ---------------------------------------------------------------- the printer

  function Escape(c: char): seq<char> {
    if c == '"' || c == '\\' then ['\\', c] else if c == '\n' then ['\\', 'n'] else [c]
  }

  function Escaped(s: seq<char>): seq<char> {
    if s == [] then [] else Escape(s[0]) + Escaped(s[1..])
  }

  /** `"key":"value"`, the value escaped. */
  function Field(key: seq<char>, v: seq<char>): seq<char> {
    "\"" + key + "\":\"" + Escaped(v) + "\""
  }

  function Printed(p: Pkg): seq<char> {
    "  {" + Field("name", p.name) + "," + Field("version", p.version) + "," + Field("installPath", p.path) + "}"
  }

  /** The packages from `i` on, with what separates them. */
  function PrintedFrom(pkgs: seq<Pkg>, i: nat): seq<char>
    requires i <= |pkgs|
    decreases |pkgs| - i
  {
    if i == |pkgs| then [] else
    Printed(pkgs[i]) + (if i + 1 < |pkgs| then ",\n" else "\n") + PrintedFrom(pkgs, i + 1)
  }

  function Render(pkgs: seq<Pkg>): seq<char> { "[\n" + PrintedFrom(pkgs, 0) + "]\n" }
}
