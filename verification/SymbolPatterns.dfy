// Symbol patterns (crates/cgx-core/src/pattern.rs): exact names, short names and globs whose `*`
// stays within one segment. Characters stand for bytes.
module SymbolPatterns {
  import opened Strings

  datatype PatternKind = Fqn | Glob | ShortName

  datatype SymbolPattern = SymbolPattern(kind: PatternKind, text: string)

  // Length of the separator (`::` or `/`) that starts at `i`, 0 if none does.
  function SepLen(s: string, i: nat): nat {
    if i >= |s| then 0
    else if s[i] == '/' then 1
    else if s[i] == ':' && i + 1 < |s| && s[i + 1] == ':' then 2
    else 0
  }

  predicate HasSeparator(s: string) {
    exists i | 0 <= i < |s| :: SepLen(s, i) > 0
  }

  // Where the last segment begins, scanning from `i` with the current segment begun at `start`.
  function LastSegment(s: string, i: nat, start: nat): (r: nat)
    requires start <= i <= |s|
    requires forall k | start <= k < i :: SepLen(s, k) == 0
    requires start == 0 || SepBefore(s, start)
    ensures start <= r <= |s|
    ensures forall k | r <= k < |s| :: SepLen(s, k) == 0
    ensures r == 0 || SepBefore(s, r)
    ensures (forall k | start <= k < |s| :: SepLen(s, k) == 0) ==> r == start
    decreases |s| - i
  {
    if i == |s| then start
    else if SepLen(s, i) > 0 then LastSegment(s, i + SepLen(s, i), i + SepLen(s, i))
    else LastSegment(s, i + 1, start)
  }

  predicate SepBefore(s: string, i: nat) {
    (0 < i <= |s| && s[i - 1] == '/') || (1 < i <= |s| && s[i - 2] == ':' && s[i - 1] == ':')
  }

  // The last segment: a suffix without separators that a separator precedes, unless it is the
  // whole name.
  function ShortNameOf(fqn: string): (r: string)
    ensures !HasSeparator(r)
    ensures |r| <= |fqn| && fqn[|fqn| - |r|..] == r
    ensures r == fqn || SepBefore(fqn, |fqn| - |r|)
    ensures !HasSeparator(fqn) ==> r == fqn
  {
    var start := LastSegment(fqn, 0, 0);
    assert forall k: nat | k < |fqn| - start :: SepLen(fqn[start..], k) == SepLen(fqn, k + start);
    fqn[start..]
  }

  method ShortName(fqn: string) returns (r: string)
    ensures r == ShortNameOf(fqn)
  {
    var start, i := 0, 0;
    while i < |fqn|
      invariant start <= i <= |fqn|
      invariant forall k | start <= k < i :: SepLen(fqn, k) == 0
      invariant start == 0 || SepBefore(fqn, start)
      invariant LastSegment(fqn, i, start) == LastSegment(fqn, 0, 0)
    {
      var sep := SepLen(fqn, i);
      if sep > 0 {
        i := i + sep;
        start := i;
      } else {
        i := i + 1;
      }
    }
    r := fqn[start..];
  }

  predicate SegmentRun(text: string, n: nat) {
    n <= |text| && forall k | 0 <= k < n :: SepLen(text, k) == 0
  }

  predicate GlobAt(pat: string, text: string)
    decreases |pat|
  {
    if StartsWith(pat, "**") then exists n | 0 <= n <= |text| :: GlobAt(pat[2..], text[n..])
    else if pat != [] && pat[0] == '*' then
      exists n | 0 <= n <= |text| :: SegmentRun(text, n) && GlobAt(pat[1..], text[n..])
    else if pat == [] || text == [] then pat == text
    else if pat[0] == '?' then text[0] != ':' && text[0] != '/' && GlobAt(pat[1..], text[1..])
    else pat[0] == text[0] && GlobAt(pat[1..], text[1..])
  }

  // The backtracking matcher.
  method GlobMatchAt(pat: string, text: string) returns (r: bool)
    ensures r <==> GlobAt(pat, text)
    decreases |pat|
  {
    if StartsWith(pat, "**") {
      for split := 0 to |text| + 1
        invariant forall n | 0 <= n < split :: !GlobAt(pat[2..], text[n..])
      {
        var hit := GlobMatchAt(pat[2..], text[split..]);
        if hit {
          return true;
        }
      }
      return false;
    }
    if pat != [] && pat[0] == '*' {
      var split := 0;
      while true
        invariant SegmentRun(text, split)
        invariant forall n | 0 <= n < split :: !GlobAt(pat[1..], text[n..])
        decreases |text| - split
      {
        var hit := GlobMatchAt(pat[1..], text[split..]);
        if hit {
          return true;
        }
        if split >= |text| || SepLen(text, split) > 0 {
          return false;
        }
        split := split + 1;
      }
    }
    if pat == [] || text == [] {
      return pat == text;
    }
    if pat[0] == '?' {
      if text[0] == ':' || text[0] == '/' {
        return false;
      }
    } else if pat[0] != text[0] {
      return false;
    }
    r := GlobMatchAt(pat[1..], text[1..]);
  }

  predicate MatchesFqn(p: SymbolPattern, fqn: string) {
    match p.kind
    case Fqn => fqn == p.text
    case ShortName => ShortNameOf(fqn) == p.text
    case Glob => GlobAt(p.text, fqn)
  }

  // ---- the declarative match relation ----

  datatype Tok = Deep | Star | AnyChar | Lit(c: char)

  function Tokens(pat: string): seq<Tok> {
    if pat == [] then []
    else if StartsWith(pat, "**") then [Deep] + Tokens(pat[2..])
    else if pat[0] == '*' then [Star] + Tokens(pat[1..])
    else if pat[0] == '?' then [AnyChar] + Tokens(pat[1..])
    else [Lit(pat[0])] + Tokens(pat[1..])
  }

  // What a token may cover: `text[i..j]`. Separators are those of the whole text.
  predicate Covers(t: Tok, text: string, i: nat, j: nat) {
    i <= j <= |text|
    && match t
       case Deep => true
       case Star => forall k | i <= k < j :: SepLen(text, k) == 0
       case AnyChar => j == i + 1 && text[i] != ':' && text[i] != '/'
       case Lit(c) => j == i + 1 && text[i] == c
  }

  predicate Piece(ts: seq<Tok>, text: string, cuts: seq<nat>, k: nat)
    requires k < |ts| && |cuts| == |ts| + 1
  {
    Covers(ts[k], text, cuts[k], cuts[k + 1])
  }

  // `cuts` splits `text` from `i` to its end into one piece per token.
  ghost predicate Splits(ts: seq<Tok>, text: string, i: nat, cuts: seq<nat>) {
    && |cuts| == |ts| + 1 && cuts[0] == i && cuts[|ts|] == |text|
    && forall k | 0 <= k < |ts| :: Piece(ts, text, cuts, k)
  }

  lemma SplitsCons(t: Tok, ts: seq<Tok>, text: string, i: nat, cuts: seq<nat>)
    requires |cuts| == |ts| + 1
    ensures Splits([t] + ts, text, i, [i] + cuts) <==> Covers(t, text, i, cuts[0]) && Splits(ts, text, cuts[0], cuts)
  {
    var ts', cuts' := [t] + ts, [i] + cuts;
    forall k | 0 <= k < |ts| ensures Piece(ts', text, cuts', k + 1) == Piece(ts, text, cuts, k) {
    }
    assert Piece(ts', text, cuts', 0) == Covers(t, text, i, cuts[0]);
    if Splits(ts', text, i, cuts') {
      forall k | 0 <= k < |ts| ensures Piece(ts, text, cuts, k) {
        assert Piece(ts', text, cuts', k + 1);
      }
    }
    if Covers(t, text, i, cuts[0]) && Splits(ts, text, cuts[0], cuts) {
      forall k | 0 <= k < |ts'| ensures Piece(ts', text, cuts', k) {
        assert k > 0 ==> Piece(ts, text, cuts, k - 1);
      }
    }
  }

  lemma SuffixRun(text: string, i: nat, n: nat)
    requires i + n <= |text|
    ensures SegmentRun(text[i..], n) <==> Covers(Star, text, i, i + n)
    ensures text[i..][n..] == text[i + n..]
  {
    var rest := text[i..];
    assert forall k: nat :: SepLen(rest, k) == SepLen(text, k + i);
    assert forall k | i <= k < i + n :: SepLen(text, k) == SepLen(rest, k - i);
  }

  // How many pattern characters the first token takes.
  function Width(pat: string): nat {
    if StartsWith(pat, "**") then 2 else 1
  }

  lemma FirstToken(pat: string)
    requires pat != []
    ensures Width(pat) <= |pat| && Tokens(pat) != [] && Tokens(pat) == [Tokens(pat)[0]] + Tokens(pat[Width(pat)..])
  {
    var more := Tokens(pat[Width(pat)..]);
    if StartsWith(pat, "**") {
      assert Tokens(pat) == [Deep] + more;
    } else if pat[0] == '*' {
      assert Tokens(pat) == [Star] + more;
    } else if pat[0] == '?' {
      assert Tokens(pat) == [AnyChar] + more;
    } else {
      assert Tokens(pat) == [Lit(pat[0])] + more;
    }
  }

  // The matcher gives the first token a piece and the rest the rest.
  lemma GlobStep(pat: string, text: string, i: nat)
    requires pat != [] && i <= |text|
    ensures GlobAt(pat, text[i..]) <==>
      exists j | i <= j <= |text| :: Covers(Tokens(pat)[0], text, i, j) && GlobAt(pat[Width(pat)..], text[j..])
  {
    var rest, t, more := text[i..], Tokens(pat)[0], pat[Width(pat)..];
    if GlobAt(pat, rest) {
      var n: nat;
      if t == Deep {
        n :| 0 <= n <= |rest| && GlobAt(more, rest[n..]);
      } else if t == Star {
        n :| 0 <= n <= |rest| && SegmentRun(rest, n) && GlobAt(more, rest[n..]);
      } else {
        n := 1;
      }
      SuffixRun(text, i, n);
      assert Covers(t, text, i, i + n) && GlobAt(more, text[i + n..]);
    }
    if j :| i <= j <= |text| && Covers(t, text, i, j) && GlobAt(more, text[j..]) {
      SuffixRun(text, i, j - i);
      assert 0 <= j - i <= |rest| && GlobAt(more, rest[j - i..]);
    }
  }

  lemma {:induction false} GlobToCuts(pat: string, text: string, i: nat) returns (cuts: seq<nat>)
    requires i <= |text| && GlobAt(pat, text[i..])
    ensures Splits(Tokens(pat), text, i, cuts)
    decreases |pat|
  {
    if pat == [] {
      cuts := [i];
    } else {
      GlobStep(pat, text, i);
      FirstToken(pat);
      var j :| i <= j <= |text| && Covers(Tokens(pat)[0], text, i, j) && GlobAt(pat[Width(pat)..], text[j..]);
      var more := GlobToCuts(pat[Width(pat)..], text, j);
      cuts := [i] + more;
      SplitsCons(Tokens(pat)[0], Tokens(pat[Width(pat)..]), text, i, more);
    }
  }

  lemma {:induction false} CutsToGlob(pat: string, text: string, i: nat, cuts: seq<nat>)
    requires i <= |text| && Splits(Tokens(pat), text, i, cuts)
    ensures GlobAt(pat, text[i..])
    decreases |pat|
  {
    if pat != [] {
      FirstToken(pat);
      assert cuts == [i] + cuts[1..];
      SplitsCons(Tokens(pat)[0], Tokens(pat[Width(pat)..]), text, i, cuts[1..]);
      CutsToGlob(pat[Width(pat)..], text, cuts[1], cuts[1..]);
      GlobStep(pat, text, i);
    }
  }

  // The matcher decides exactly whether the text can be cut into pieces its tokens cover.
  lemma GlobIsDeclarative(pat: string, text: string)
    ensures GlobAt(pat, text) <==> exists cuts: seq<nat> :: Splits(Tokens(pat), text, 0, cuts)
  {
    assert text[0..] == text;
    if GlobAt(pat, text) {
      var cuts := GlobToCuts(pat, text, 0);
      assert exists c: seq<nat> :: Splits(Tokens(pat), text, 0, c);
    }
    if exists cuts: seq<nat> :: Splits(Tokens(pat), text, 0, cuts) {
      var cuts: seq<nat> :| Splits(Tokens(pat), text, 0, cuts);
      CutsToGlob(pat, text, 0, cuts);
      assert GlobAt(pat, text);
    }
  }

  // Widening a `*` to `**` never loses a match.
  lemma WideningKeepsMatches(pat: string, wide: string, k: nat, text: string)
    requires k < |Tokens(pat)| && Tokens(wide) == Tokens(pat)[k := Deep]
    requires GlobAt(pat, text)
    ensures GlobAt(wide, text)
  {
    assert text[0..] == text;
    var cuts := GlobToCuts(pat, text, 0);
    forall i | 0 <= i < |Tokens(wide)| ensures Piece(Tokens(wide), text, cuts, i) {
      assert Piece(Tokens(pat), text, cuts, i);
    }
    CutsToGlob(wide, text, 0, cuts);
  }

  predicate Plain(pat: string) {
    '*' !in pat && '?' !in pat
  }

  // A glob without metacharacters is an exact name.
  lemma {:induction false} PlainGlobIsEquality(pat: string, text: string)
    requires Plain(pat)
    ensures GlobAt(pat, text) <==> pat == text
    decreases |pat|
  {
    if pat != [] {
      assert pat == [pat[0]] + pat[1..];
      assert pat[0] in pat;
      assert |pat| >= 2 ==> pat[..2][0] == pat[0];
      if text != [] {
        assert text == [text[0]] + text[1..];
        PlainGlobIsEquality(pat[1..], text[1..]);
      }
    }
  }

  // `*` alone matches exactly the names of one segment, `**` every name.
  lemma StarIsOneSegment(text: string)
    ensures GlobAt("*", text) <==> !HasSeparator(text)
    ensures GlobAt("**", text)
  {
    assert "*"[1..] == [] && "**"[2..] == [];
    assert text[|text|..] == [];
    if GlobAt("*", text) {
      var n :| 0 <= n <= |text| && SegmentRun(text, n) && GlobAt([], text[n..]);
      assert n == |text|;
    }
    if !HasSeparator(text) {
      assert SegmentRun(text, |text|) && GlobAt([], text[|text|..]);
    }
  }
}
