// The Mermaid label encoding (crates/cgx-cli/src/output.rs, mermaid_label and its tables): a
// single-introducer encoding that decodes to its input and that the rendering pipeline leaves alone.
module Mermaid {
  import opened Prelude
  import opened Escaping
  import opened Directive

  datatype Context = NodeLabel | EdgeLabel

  function MermaidEntity(c: char): Option<string> {
    match c
    case '&' => Some("&amp;")
    case '"' => Some("&quot;")
    case '<' => Some("&lt;")
    case '`' => Some("&grave;")
    case '\\' => Some("&bsol;")
    case ';' => Some("&semi;")
    case _ => None
  }

  function MermaidEdgeEntity(c: char): Option<string> {
    match c
    case '|' => Some("&verbar;")
    case '[' => Some("&lsqb;")
    case ']' => Some("&rsqb;")
    case '(' => Some("&lpar;")
    case ')' => Some("&rpar;")
    case '{' => Some("&lcub;")
    case '}' => Some("&rcub;")
    case _ => MermaidEntity(c)
  }

  function Entity(ctx: Context, c: char): Option<string> {
    if ctx == NodeLabel then MermaidEntity(c) else MermaidEdgeEntity(c)
  }

  function Code(ctx: Context, escapeHash: bool, c: char): string {
    match Entity(ctx, c)
    case Some(e) => e
    case None => if escapeHash && c == '#' then "&num;" else [c]
  }

  function Coder(ctx: Context, escapeHash: bool): char -> string {
    (c: char) => Code(ctx, escapeHash, c)
  }

  method EncodeLabel(s: string, ctx: Context, escapeHash: bool) returns (out: string)
    ensures out == Encode(s, Coder(ctx, escapeHash))
  {
    out := [];
    for i := 0 to |s|
      invariant out == Encode(s[..i], Coder(ctx, escapeHash))
    {
      EncodeSnoc(s[..i], s[i], Coder(ctx, escapeHash));
      assert s[..i + 1] == s[..i] + [s[i]];
      match Entity(ctx, s[i])
      case Some(e) => out := out + e;
      case None => out := out + if escapeHash && s[i] == '#' then "&num;" else [s[i]];
    }
    assert s[..|s|] == s;
  }

  // ---- the decoder ----

  // Written from the reference table, not from the encoder's.
  function Reference(name: string): Option<char> {
    if name == "&amp;" then Some('&')
    else if name == "&quot;" then Some('"')
    else if name == "&lt;" then Some('<')
    else if name == "&grave;" then Some('`')
    else if name == "&bsol;" then Some('\\')
    else if name == "&semi;" then Some(';')
    else if name == "&num;" then Some('#')
    else if name == "&verbar;" then Some('|')
    else if name == "&lsqb;" then Some('[')
    else if name == "&rsqb;" then Some(']')
    else if name == "&lpar;" then Some('(')
    else if name == "&rpar;" then Some(')')
    else if name == "&lcub;" then Some('{')
    else if name == "&rcub;" then Some('}')
    else None
  }

  // The reference a tail opens with: its length and its character.
  function EntityAt(tail: string): (r: Option<(nat, char)>)
    ensures r.Some? ==> 1 <= r.value.0 <= |tail|
  {
    var end := FindChar(tail, ';');
    if end.None? then None
    else
      var c := Reference(tail[..end.value + 1]);
      if c.None? then None else Some((end.value + 1, c.value))
  }

  // None where an `&` opens no known reference.
  function MermaidDecode(s: string): Option<string>
    decreases |s|
  {
    if s == [] then Some([])
    else if s[0] != '&' then Cons(s[0], MermaidDecode(s[1..]))
    else
      var e := EntityAt(s);
      if e.None? then None else Cons(e.value.1, MermaidDecode(s[e.value.0..]))
  }

  // Everything outside the references.
  function Residue(s: string): string
    decreases |s|
  {
    if s == [] then []
    else if s[0] != '&' then [s[0]] + Residue(s[1..])
    else
      var e := EntityAt(s);
      if e.None? then ['&'] + Residue(s[1..]) else Residue(s[e.value.0..])
  }

  // ---- one character ----

  // An escape is a reference to its character that ends at its only semicolon.
  predicate Escape(e: string, c: char) {
    && |e| > 2 && e[0] == '&' && e[|e| - 1] == ';' && Reference(e) == Some(c)
    && forall i | 0 < i < |e| - 1 :: 'a' <= e[i] <= 'z'
  }

  lemma EscapesOf(ctx: Context, escapeHash: bool, c: char)
    ensures Code(ctx, escapeHash, c) == [c] || Escape(Code(ctx, escapeHash, c), c)
    ensures Code(ctx, escapeHash, c) == [c] ==> c != '&' && c != ';' && !Hostile(ctx, c)
    ensures escapeHash && c == '#' ==> Code(ctx, escapeHash, c) != [c]
  {
  }

  lemma EscapeReads(e: string, c: char, t: string)
    requires Escape(e, c)
    ensures EntityAt(e + t) == Some((|e|, c)) && (e + t)[0] == '&' && (e + t)[|e|..] == t
  {
    var s := e + t;
    assert s[|e| - 1] == ';' && forall i | 0 <= i < |e| - 1 :: s[i] == e[i] && s[i] != ';';
    assert s[..|e|] == e;
  }

  lemma Unfold(s: string, code: char -> string)
    requires s != []
    ensures Encode(s, code) == code(s[0]) + Encode(s[1..], code)
    ensures s == [s[0]] + s[1..]
    ensures code(s[0]) == [s[0]] ==> Encode(s, code)[1..] == Encode(s[1..], code)
  {
  }

  // ---- injectivity ----

  lemma {:induction false} DecodesBack(s: string, ctx: Context, escapeHash: bool)
    ensures MermaidDecode(Encode(s, Coder(ctx, escapeHash))) == Some(s)
    decreases |s|
  {
    if s != [] {
      var code := Coder(ctx, escapeHash);
      DecodesBack(s[1..], ctx, escapeHash);
      Unfold(s, code);
      EscapesOf(ctx, escapeHash, s[0]);
      if code(s[0]) != [s[0]] {
        EscapeReads(code(s[0]), s[0], Encode(s[1..], code));
      }
    }
  }

  // ---- inertness ----

  predicate Hostile(ctx: Context, c: char) {
    || c == '&' || c == '"' || c == '<' || c == '`' || c == '\\' || c == ';'
    || (ctx == EdgeLabel && (c == '|' || c == '[' || c == ']' || c == '(' || c == ')' || c == '{' || c == '}'))
  }

  predicate Word(c: char) {
    '0' <= c <= '9' || 'a' <= c <= 'z' || 'A' <= c <= 'Z' || c == '_'
  }

  predicate WordThenSemi(s: string) {
    s != [] && (s[0] == ';' || (Word(s[0]) && WordThenSemi(s[1..])))
  }

  // A `#\w+;` somewhere in `s`.
  predicate HasHashCode(s: string) {
    s != [] && ((s[0] == '#' && |s| > 1 && Word(s[1]) && WordThenSemi(s[1..])) || HasHashCode(s[1..]))
  }

  ghost predicate Inert(ctx: Context, encoded: string) {
    && (forall c | c in Residue(encoded) :: !Hostile(ctx, c))
    && !HasHashCode(encoded)
    && !RewriteMatches(encoded)
  }

  lemma {:induction false} ResidueHarmless(s: string, ctx: Context, escapeHash: bool)
    ensures forall c | c in Residue(Encode(s, Coder(ctx, escapeHash))) :: !Hostile(ctx, c)
    decreases |s|
  {
    if s != [] {
      var code := Coder(ctx, escapeHash);
      var e, t := Encode(s, code), Encode(s[1..], code);
      ResidueHarmless(s[1..], ctx, escapeHash);
      Unfold(s, code);
      EscapesOf(ctx, escapeHash, s[0]);
      if code(s[0]) != [s[0]] {
        EscapeReads(code(s[0]), s[0], t);
        assert Residue(e) == Residue(t);
      } else {
        assert Residue(e) == [s[0]] + Residue(t);
      }
    }
  }

  // A run of word characters never reaches a semicolon: the `&` of its escape stands between.
  lemma {:induction false} WordRunStops(s: string, ctx: Context, escapeHash: bool)
    ensures !WordThenSemi(Encode(s, Coder(ctx, escapeHash)))
    decreases |s|
  {
    if s != [] {
      var code := Coder(ctx, escapeHash);
      WordRunStops(s[1..], ctx, escapeHash);
      Unfold(s, code);
      EscapesOf(ctx, escapeHash, s[0]);
    }
  }

  lemma {:induction false} HashCodeSkips(p: string, t: string)
    requires '#' !in p
    ensures HasHashCode(p + t) <==> HasHashCode(t)
    decreases |p|
  {
    if p == [] {
      assert p + t == t;
    } else {
      HashCodeSkips(p[1..], t);
      assert (p + t)[1..] == p[1..] + t;
    }
  }

  lemma {:induction false} NoHashCode(s: string, ctx: Context, escapeHash: bool)
    ensures !HasHashCode(Encode(s, Coder(ctx, escapeHash)))
    decreases |s|
  {
    if s != [] {
      var code := Coder(ctx, escapeHash);
      NoHashCode(s[1..], ctx, escapeHash);
      Unfold(s, code);
      EscapesOf(ctx, escapeHash, s[0]);
      WordRunStops(s[1..], ctx, escapeHash);
      if code(s[0]) != [s[0]] {
        HashCodeSkips(code(s[0]), Encode(s[1..], code));
      }
    }
  }

  lemma {:induction false} NoHash(s: string, ctx: Context)
    ensures '#' !in Encode(s, Coder(ctx, true))
    decreases |s|
  {
    if s != [] {
      NoHash(s[1..], ctx);
      Unfold(s, Coder(ctx, true));
      EscapesOf(ctx, true, s[0]);
    }
  }

  // The label that is written decodes to its input and nothing in the pipeline acts on it; `#` is
  // escaped only where the directive rewrite would bite.
  method MermaidLabel(s: string, ctx: Context) returns (out: string)
    ensures MermaidDecode(out) == Some(s)
    ensures Inert(ctx, out)
    ensures var raw := Encode(s, Coder(ctx, false));
            out == if RewriteMatches(raw) then Encode(s, Coder(ctx, true)) else raw
  {
    var raw := EncodeLabel(s, ctx, false);
    var bites := DirectiveRewriteMatches(raw);
    if bites {
      out := EncodeLabel(s, ctx, true);
      NoHash(s, ctx);
      NoHashNoMatch(out);
    } else {
      out := raw;
    }
    DecodesBack(s, ctx, bites);
    ResidueHarmless(s, ctx, bites);
    NoHashCode(s, ctx, bites);
  }

  // Labels never collide, not even between the two branches or the two contexts.
  lemma MermaidInjective(s: string, t: string, ctx: Context, ctx': Context, h: bool, h': bool)
    requires Encode(s, Coder(ctx, h)) == Encode(t, Coder(ctx', h'))
    ensures s == t
  {
    DecodesBack(s, ctx, h);
    DecodesBack(t, ctx', h');
  }
}
