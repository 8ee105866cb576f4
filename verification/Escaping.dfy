// The label escapers for Graphviz DOT and D2 and the decoders their targets run
// (crates/cgx-cli/src/output.rs, dot_label, d2_quote and the decoder models beside their tests).
module Escaping {
  import opened Prelude
  import opened Strings

  // Character-by-character encoding.
  function Encode(s: string, code: char -> string): string {
    if s == [] then [] else code(s[0]) + Encode(s[1..], code)
  }

  lemma {:induction false} EncodeSnoc(s: string, c: char, code: char -> string)
    ensures Encode(s + [c], code) == Encode(s, code) + code(c)
    decreases |s|
  {
    if s == [] {
      assert [c][1..] == [];
    } else {
      EncodeSnoc(s[1..], c, code);
      assert (s + [c])[1..] == s[1..] + [c];
    }
  }

  // ---- D2 ----

  function D2Code(c: char): string {
    if c == '\\' then "\\\\" else if c == '"' then "\\\"" else [c]
  }

  method D2Quote(s: string) returns (out: string)
    ensures out == Encode(s, D2Code)
  {
    out := [];
    for i := 0 to |s|
      invariant out == Encode(s[..i], D2Code)
    {
      EncodeSnoc(s[..i], s[i], D2Code);
      assert s[..i + 1] == s[..i] + [s[i]];
      match s[i]
      case '\\' => out := out + "\\\\";
      case '"' => out := out + "\\\"";
      case _ => out := out + [s[i]];
    }
    assert s[..|s|] == s;
  }

  // D2 undoes `\\` and `\"` and nothing else.
  function D2Decode(s: string): string {
    if s == [] then []
    else if |s| > 1 && s[0] == '\\' && (s[1] == '\\' || s[1] == '"') then [s[1]] + D2Decode(s[2..])
    else [s[0]] + D2Decode(s[1..])
  }

  // Where a double-quoted string that has just been opened closes: at the first quote that no
  // backslash escapes.
  function Close(s: string): Option<nat> {
    if s == [] then None
    else if s[0] == '"' then Some(0)
    else if s[0] == '\\' then if |s| == 1 then None else Shift(Close(s[2..]), 2)
    else Shift(Close(s[1..]), 1)
  }

  function Shift(o: Option<nat>, n: nat): Option<nat> {
    match o
    case None => None
    case Some(i) => Some(i + n)
  }

  lemma {:induction false} D2RoundTrip(s: string)
    ensures D2Decode(Encode(s, D2Code)) == s
    decreases |s|
  {
    if s != [] {
      var t := Encode(s[1..], D2Code);
      D2RoundTrip(s[1..]);
      assert s == [s[0]] + s[1..];
      if s[0] == '\\' || s[0] == '"' {
        var e := ['\\', s[0]] + t;
        assert Encode(s, D2Code) == e && e[2..] == t;
      } else {
        var e := [s[0]] + t;
        assert Encode(s, D2Code) == e && e[1..] == t;
      }
    }
  }

  // The emitted string literal ends exactly where the emitter closed it, for DOT and D2 alike.
  lemma {:induction false} ClosesAtItsEnd(s: string, code: char -> string, rest: string)
    requires code == D2Code || code == DotCode
    ensures Close(Encode(s, code) + "\"" + rest) == Some(|Encode(s, code)|)
    decreases |s|
  {
    var after := "\"" + rest;
    if s == [] {
      assert Encode(s, code) + "\"" + rest == after;
    } else {
      var e := Encode(s[1..], code);
      ClosesAtItsEnd(s[1..], code, rest);
      var t := e + "\"" + rest;
      assert Encode(s, code) + "\"" + rest == code(s[0]) + t;
      if s[0] == '\\' || s[0] == '"' {
        assert (['\\', s[0]] + t)[2..] == t;
      } else if code(s[0]) == [s[0]] {
        ClosePlain(s[0], t);
      } else {
        CloseAmp(t);
      }
    }
  }

  lemma CloseAmp(t: string)
    ensures Close("&amp;" + t) == Shift(Close(t), 5)
  {
    ClosePlain(';', t);
    ClosePlain('p', [';'] + t);
    ClosePlain('m', ['p'] + ([';'] + t));
    ClosePlain('a', ['m'] + (['p'] + ([';'] + t)));
    ClosePlain('&', ['a'] + (['m'] + (['p'] + ([';'] + t))));
    Spelled(t);
  }

  lemma ClosePlain(c: char, t: string)
    requires c != '\\' && c != '"'
    ensures Close([c] + t) == Shift(Close(t), 1)
  {
    assert ([c] + t)[1..] == t;
  }

  // ---- DOT ----

  function DotCode(c: char): string {
    if c == '\\' then "\\\\" else if c == '"' then "\\\"" else if c == '&' then "&amp;" else [c]
  }

  method DotLabel(s: string) returns (out: string)
    ensures out == Encode(s, DotCode)
  {
    out := [];
    for i := 0 to |s|
      invariant out == Encode(s[..i], DotCode)
    {
      EncodeSnoc(s[..i], s[i], DotCode);
      assert s[..i + 1] == s[..i] + [s[i]];
      match s[i]
      case '\\' => out := out + "\\\\";
      case '"' => out := out + "\\\"";
      case '&' => out := out + "&amp;";
      case _ => out := out + [s[i]];
    }
    assert s[..|s|] == s;
  }

  datatype DotCtx = NodeCtx | EdgeCtx

  function Cons(c: char, o: Option<string>): Option<string> {
    match o
    case None => None
    case Some(s) => Some([c] + s)
  }

  // Stage 1, the lexer on the body of a quoted string; None where the body would have closed the
  // string early or escaped its closing quote.
  function DotLex(s: string): Option<string> {
    if s == [] then Some([])
    else if s[0] != '\\' then if s[0] == '"' then None else Cons(s[0], DotLex(s[1..]))
    else if |s| == 1 then None
    else if s[1] == '"' then Cons('"', DotLex(s[2..]))
    else if s[1] == '\\' then Cons('\\', Cons('\\', DotLex(s[2..])))
    else if s[1] == '\n' then DotLex(s[2..])
    else Cons('\\', DotLex(s[1..]))
  }

  const SENTINEL := "\U{0}SUBST\U{0}"

  predicate Key(ctx: DotCtx, c: char) {
    c == 'G' || c == 'E' || (if ctx == NodeCtx then c == 'N' else c == 'T' || c == 'H')
  }

  // Stage 2, object substitution.
  function DotSubst(s: string, ctx: DotCtx): string {
    if s == [] then []
    else if s[0] != '\\' || |s| == 1 then [s[0]] + DotSubst(s[1..], ctx)
    else if s[1] == '\\' then "\\\\" + DotSubst(s[2..], ctx)
    else if Key(ctx, s[1]) then SENTINEL + DotSubst(s[2..], ctx)
    else "\\" + DotSubst(s[1..], ctx)
  }

  function FindChar(s: string, c: char): (r: Option<nat>)
    ensures r.None? <==> c !in s
    ensures r.Some? ==> r.value < |s| && s[r.value] == c && forall i | 0 <= i < r.value :: s[i] != c
  {
    if s == [] then None
    else if s[0] == c then Some(0)
    else
      var r := Shift(FindChar(s[1..], c), 1);
      assert r.Some? ==> forall i | 0 < i < r.value :: s[i] == s[1..][i - 1];
      assert s == [s[0]] + s[1..];
      r
  }

  function DigitOf(c: char, radix: nat): Option<nat> {
    var v := if '0' <= c <= '9' then (c - '0') as int
             else if 'a' <= c <= 'f' then (c - 'a') as int + 10
             else if 'A' <= c <= 'F' then (c - 'A') as int + 10
             else radix;
    if v < radix then Some(v) else None
  }

  function Number(s: string, radix: nat, acc: nat): Option<nat> {
    if s == [] then Some(acc)
    else
      var d := DigitOf(s[0], radix);
      if d.Some? then Number(s[1..], radix, acc * radix + d.value) else None
  }

  // `u32::from_str_radix`, then `char::from_u32`.
  function CharNumber(digits: string, radix: nat): Option<char> {
    var ds := if |digits| > 1 && digits[0] == '+' then digits[1..] else digits;
    if ds == [] then None
    else
      var n := Number(ds, radix, 0);
      if n.Some? && (n.value < 0xD800 || 0xE000 <= n.value <= 0x10_FFFF) then Some(n.value as char) else None
  }

  // Stage 3, one pass of entity decoding; None where the model itself fails (`&;`).
  function DotEntities(s: string): Option<string> {
    if s == [] then Some([])
    else if s[0] != '&' then Cons(s[0], DotEntities(s[1..]))
    else if StartsWith(s, "&amp;") then Cons('&', DotEntities(s[5..]))
    else if StartsWith(s, "&quot;") then Cons('"', DotEntities(s[6..]))
    else if StartsWith(s, "&lt;") then Cons('<', DotEntities(s[4..]))
    else if StartsWith(s, "&gt;") then Cons('>', DotEntities(s[4..]))
    else if StartsWith(s, "&nbsp;") then Cons('\U{A0}', DotEntities(s[6..]))
    else
      var end := FindChar(s, ';');
      if end.None? then Cons('&', DotEntities(s[1..]))
      else if end.value < 2 then None
      else
        var body := s[2..end.value];
        var parsed :=
          if s[1] != '#' || body == [] then None
          else if body[0] == 'x' || body[0] == 'X' then CharNumber(body[1..], 16)
          else CharNumber(body, 10);
        if parsed.Some? then Cons(parsed.value, DotEntities(s[end.value + 1..]))
        else Cons('&', DotEntities(s[1..]))
  }

  // Stage 4, escapes and line breaks.
  function DotEscapes(s: string): string {
    if s == [] then []
    else if s[0] != '\\' then [s[0]] + DotEscapes(s[1..])
    else if |s| == 1 then []
    else (if s[1] == 'n' || s[1] == 'l' || s[1] == 'r' then ['\n'] else [s[1]]) + DotEscapes(s[2..])
  }

  function DotDecode(body: string, ctx: DotCtx): Option<string> {
    var lexed := DotLex(body);
    if lexed.None? then None
    else
      var decoded := DotEntities(DotSubst(lexed.value, ctx));
      if decoded.None? then None else Some(DotEscapes(decoded.value))
  }

  // What is left of the encoding after the lexer, and after entity decoding.
  function LexedCode(c: char): string {
    if c == '\\' then "\\\\" else if c == '&' then "&amp;" else [c]
  }

  function DecodedCode(c: char): string {
    if c == '\\' then "\\\\" else [c]
  }

  lemma {:induction false} LexerStage(s: string)
    ensures DotLex(Encode(s, DotCode)) == Some(Encode(s, LexedCode))
    decreases |s|
  {
    if s != [] {
      var t, u := Encode(s[1..], DotCode), Encode(s[1..], LexedCode);
      LexerStage(s[1..]);
      if s[0] == '\\' || s[0] == '"' {
        var e := ['\\', s[0]] + t;
        assert Encode(s, DotCode) == e && e[2..] == t;
        assert s[0] == '\\' ==> ['\\'] + (['\\'] + u) == "\\\\" + u;
      } else if s[0] == '&' {
        LexAmp(t);
        assert Encode(s, DotCode) == "&amp;" + t;
      } else {
        var e := [s[0]] + t;
        assert Encode(s, DotCode) == e && e[1..] == t;
      }
    }
  }

  lemma LexAmp(t: string)
    requires DotLex(t).Some?
    ensures DotLex("&amp;" + t) == Some("&amp;" + DotLex(t).value)
  {
    LexPlain(';', t);
    LexPlain('p', [';'] + t);
    LexPlain('m', ['p'] + ([';'] + t));
    LexPlain('a', ['m'] + (['p'] + ([';'] + t)));
    LexPlain('&', ['a'] + (['m'] + (['p'] + ([';'] + t))));
    Spelled(t);
    Spelled(DotLex(t).value);
  }

  lemma LexPlain(c: char, t: string)
    requires c != '\\' && c != '"'
    ensures DotLex([c] + t) == Cons(c, DotLex(t))
  {
    assert ([c] + t)[1..] == t;
  }

  lemma Spelled(t: string)
    ensures ['&'] + (['a'] + (['m'] + (['p'] + ([';'] + t)))) == "&amp;" + t
  {
  }

  // Every backslash is half of a pair, so substitution finds nothing in either context.
  lemma {:induction false} SubstitutionStage(s: string, ctx: DotCtx)
    ensures DotSubst(Encode(s, LexedCode), ctx) == Encode(s, LexedCode)
    decreases |s|
  {
    if s != [] {
      var t := Encode(s[1..], LexedCode);
      SubstitutionStage(s[1..], ctx);
      if s[0] == '\\' {
        var e := "\\\\" + t;
        assert Encode(s, LexedCode) == e && e[2..] == t;
      } else if s[0] == '&' {
        SubstPlain(';', t, ctx);
        SubstPlain('p', [';'] + t, ctx);
        SubstPlain('m', ['p'] + ([';'] + t), ctx);
        SubstPlain('a', ['m'] + (['p'] + ([';'] + t)), ctx);
        SubstPlain('&', ['a'] + (['m'] + (['p'] + ([';'] + t))), ctx);
        Spelled(t);
      } else {
        SubstPlain(s[0], t, ctx);
      }
    }
  }

  lemma SubstPlain(c: char, t: string, ctx: DotCtx)
    requires c != '\\'
    ensures DotSubst([c] + t, ctx) == [c] + DotSubst(t, ctx)
  {
    assert ([c] + t)[1..] == t;
  }

  lemma {:induction false} EntityStage(s: string)
    ensures DotEntities(Encode(s, LexedCode)) == Some(Encode(s, DecodedCode))
    decreases |s|
  {
    if s != [] {
      var t := Encode(s[1..], LexedCode);
      EntityStage(s[1..]);
      if s[0] == '&' {
        var e := "&amp;" + t;
        assert Encode(s, LexedCode) == e && e[..5] == "&amp;" && e[5..] == t;
      } else if s[0] == '\\' {
        var e := "\\\\" + t;
        assert Encode(s, LexedCode) == e && e[1..][1..] == t;
        assert ['\\'] + (['\\'] + Encode(s[1..], DecodedCode)) == "\\\\" + Encode(s[1..], DecodedCode);
      } else {
        var e := [s[0]] + t;
        assert Encode(s, LexedCode) == e && e[1..] == t;
      }
    }
  }

  lemma {:induction false} EscapeStage(s: string)
    ensures DotEscapes(Encode(s, DecodedCode)) == s
    decreases |s|
  {
    if s != [] {
      var t := Encode(s[1..], DecodedCode);
      EscapeStage(s[1..]);
      assert s == [s[0]] + s[1..];
      if s[0] == '\\' {
        var e := "\\\\" + t;
        assert Encode(s, DecodedCode) == e && e[2..] == t;
      } else {
        var e := [s[0]] + t;
        assert Encode(s, DecodedCode) == e && e[1..] == t;
      }
    }
  }

  // All four stages together give every label back, in both contexts.
  lemma DotRoundTrip(s: string, ctx: DotCtx)
    ensures DotDecode(Encode(s, DotCode), ctx) == Some(s)
  {
    LexerStage(s);
    SubstitutionStage(s, ctx);
    EntityStage(s);
    EscapeStage(s);
  }

  lemma DotInjective(s: string, t: string)
    requires Encode(s, DotCode) == Encode(t, DotCode)
    ensures s == t
  {
    DotRoundTrip(s, NodeCtx);
    DotRoundTrip(t, NodeCtx);
  }

  // Nothing emitted is live: each `&` opens `&amp;`, each `\` opens `\\` or `\"`, no quote stands
  // bare.
  predicate DotInert(s: string) {
    s == []
    || (if s[0] == '&' then StartsWith(s, "&amp;") && DotInert(s[5..])
        else if s[0] == '\\' then |s| > 1 && (s[1] == '\\' || s[1] == '"') && DotInert(s[2..])
        else s[0] != '"' && DotInert(s[1..]))
  }

  lemma {:induction false} DotLabelIsInert(s: string)
    ensures DotInert(Encode(s, DotCode))
    decreases |s|
  {
    if s != [] {
      var t := Encode(s[1..], DotCode);
      DotLabelIsInert(s[1..]);
      var e := DotCode(s[0]) + t;
      assert Encode(s, DotCode) == e && e[|DotCode(s[0])|..] == t && e[..|DotCode(s[0])|] == DotCode(s[0]);
    }
  }
}
