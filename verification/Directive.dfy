// Mermaid's `style` / `classDef` source rewrite and the renderer's test for it
// (crates/cgx-cli/src/output.rs, directive_rewrite_matches and directive_line_matches).
module Directive {
  const STYLE := "style"
  const CLASS_DEF := "classDef"

  // Whitespace as `directive_line_matches` reads it: ASCII only.
  predicate Space(c: char) {
    c == ' ' || c == '\t' || c == '\n' || c == '\U{C}' || c == '\r'
  }

  predicate At(line: string, k: nat, word: string) {
    k + |word| <= |line| && line[k..k + |word|] == word
  }

  ghost predicate Run(line: string, c: nat, h: nat) {
    && c < h < |line| && line[c] == ':' && line[h] == '#'
    && forall i | c < i < h :: !Space(line[i])
  }

  // `line` splits as a prefix, the keyword, any run, `:`, a run without whitespace, `#`, any run,
  // `;` and a suffix: the regular expression `keyword.*:\S*#.*;`.
  ghost predicate Splits(line: string, keyword: string) {
    exists k: nat, c: nat, h: nat, m: nat :: SplitsAt(line, keyword, k, c, h, m)
  }

  ghost predicate SplitsAt(line: string, keyword: string, k: nat, c: nat, h: nat, m: nat) {
    At(line, k, keyword) && k + |keyword| <= c && Run(line, c, h) && h < m < |line| && line[m] == ';'
  }

  method Find(line: string, word: string) returns (found: bool, k: nat)
    ensures found ==> At(line, k, word) && forall j: nat | j < k :: !At(line, j, word)
    ensures !found ==> forall j: nat :: !At(line, j, word)
  {
    k := 0;
    while k + |word| <= |line|
      invariant forall j: nat | j < k :: !At(line, j, word)
      decreases |line| - k
    {
      if line[k..k + |word|] == word {
        return true, k;
      }
      k := k + 1;
    }
    found := false;
  }

  method FindLast(line: string, x: char) returns (found: bool, k: nat)
    ensures found ==> k < |line| && line[k] == x && forall j | k < j < |line| :: line[j] != x
    ensures !found ==> x !in line
  {
    k := |line|;
    while k > 0
      invariant k <= |line| && forall j | k <= j < |line| :: line[j] != x
    {
      k := k - 1;
      if line[k] == x {
        return true, k;
      }
    }
    found := false;
  }

  // Trying the earliest keyword, the last semicolon and, from each colon, the first reachable
  // hash decides the whole pattern. The first colon that reaches a hash at all settles the answer:
  // any later one reaches the same hash or a later one.
  method DirectiveLineMatches(line: string, keyword: string) returns (r: bool)
    ensures r <==> Splits(line, keyword)
  {
    var found, kw := Find(line, keyword);
    if !found {
      return false;
    }
    var semi, last := FindLast(line, ';');
    if !semi {
      return false;
    }
    for colon := kw + |keyword| to |line|
      invariant forall c, h | kw + |keyword| <= c < colon :: !Run(line, c, h)
    {
      if line[colon] != ':' {
        continue;
      }
      for hash := colon + 1 to |line|
        invariant forall i | colon < i < hash :: !Space(line[i]) && line[i] != '#'
      {
        if Space(line[hash]) {
          break;
        }
        if line[hash] == '#' {
          FirstHashDecides(line, keyword, kw, colon, hash, last);
          return hash < last;
        }
      }
    }
    return false;
  }

  lemma FirstHashDecides(line: string, keyword: string, kw: nat, colon: nat, hash: nat, last: nat)
    requires At(line, kw, keyword) && forall j: nat | j < kw :: !At(line, j, keyword)
    requires last < |line| && line[last] == ';' && forall j | last < j < |line| :: line[j] != ';'
    requires kw + |keyword| <= colon && Run(line, colon, hash)
    requires forall c, h | kw + |keyword| <= c < colon :: !Run(line, c, h)
    requires forall i | colon < i < hash :: line[i] != '#'
    ensures hash < last <==> Splits(line, keyword)
  {
    if Splits(line, keyword) {
      var k: nat, c: nat, h: nat, m: nat :| SplitsAt(line, keyword, k, c, h, m);
      assert kw <= k;
      assert hash <= h;
    }
    if hash < last {
      assert SplitsAt(line, keyword, kw, colon, hash, last);
    }
  }

  // ---- lines ----

  // `str::lines`: split at each newline, a carriage return before it dropped; no final empty line.
  function Lines(s: string): seq<string> {
    if s == [] then []
    else
      var n := LineEnd(s);
      if n == |s| then [s] else [DropReturn(s[..n])] + Lines(s[n + 1..])
  }

  function LineEnd(s: string): (n: nat)
    ensures n <= |s| && (n < |s| ==> s[n] == '\n') && forall i | 0 <= i < n :: s[i] != '\n'
  {
    if s == [] || s[0] == '\n' then 0
    else
      var n := LineEnd(s[1..]) + 1;
      assert forall i | 0 < i < n :: s[i] == s[1..][i - 1];
      n
  }

  function DropReturn(s: string): string {
    if s != [] && s[|s| - 1] == '\r' then s[..|s| - 1] else s
  }

  ghost predicate RewriteMatches(text: string) {
    exists i | 0 <= i < |Lines(text)| :: Splits(Lines(text)[i], STYLE) || Splits(Lines(text)[i], CLASS_DEF)
  }

  method DirectiveRewriteMatches(text: string) returns (r: bool)
    ensures r <==> RewriteMatches(text)
  {
    var lines := Lines(text);
    for i := 0 to |lines|
      invariant forall j | 0 <= j < i :: !Splits(lines[j], STYLE) && !Splits(lines[j], CLASS_DEF)
    {
      var style := DirectiveLineMatches(lines[i], STYLE);
      if style {
        return true;
      }
      var classDef := DirectiveLineMatches(lines[i], CLASS_DEF);
      if classDef {
        return true;
      }
    }
    return false;
  }

  // The rewrite needs a hash.
  lemma {:induction false} LinesWithin(s: string)
    ensures forall i | 0 <= i < |Lines(s)| :: forall c | c in Lines(s)[i] :: c in s
    decreases |s|
  {
    if s != [] {
      var n := LineEnd(s);
      if n < |s| {
        LinesWithin(s[n + 1..]);
      }
    }
  }

  lemma NoHashNoMatch(text: string)
    requires '#' !in text
    ensures !RewriteMatches(text)
  {
    LinesWithin(text);
  }

  // ---- the emitted line ----

  // What may stand around a label: nothing the pattern could start, cross or end in.
  ghost predicate Wrapper(pre: string, post: string) {
    && (forall c | c in pre || c in post :: c != ':' && c != '#' && c != ';')
    && (forall k: nat :: !At(pre, k, STYLE) && !At(pre, k, CLASS_DEF))
    && pre != [] && pre[|pre| - 1] !in STYLE && pre[|pre| - 1] !in CLASS_DEF
  }

  lemma Straddles(pre: string, rest: string, word: string, k: nat)
    requires At(pre + rest, k, word) && k < |pre|
    ensures At(pre, k, word) || pre[|pre| - 1] in word
  {
    var all := pre + rest;
    if k + |word| <= |pre| {
      assert pre[k..k + |word|] == all[k..k + |word|];
    } else {
      var i := |pre| - 1 - k;
      assert all[k..k + |word|][i] == pre[|pre| - 1];
    }
  }

  lemma KeywordInside(pre: string, rest: string, word: string, k: nat)
    requires pre != [] && pre[|pre| - 1] !in word && !At(pre, k, word) && At(pre + rest, k, word)
    ensures k >= |pre|
  {
    if k < |pre| {
      Straddles(pre, rest, word, k);
    }
  }

  lemma CharOf(pre: string, text: string, post: string, i: nat)
    requires i < |pre + text + post|
    ensures i < |pre| ==> (pre + text + post)[i] in pre
    ensures i >= |pre| + |text| ==> (pre + text + post)[i] in post
  {
  }

  lemma LineToLabel(pre: string, text: string, post: string, word: string, k: nat, c: nat, h: nat, m: nat)
    requires Wrapper(pre, post) && (word == STYLE || word == CLASS_DEF)
    requires SplitsAt(pre + text + post, word, k, c, h, m)
    ensures Splits(text, word)
  {
    var all, p := pre + text + post, |pre|;
    assert all == pre + (text + post);
    CharOf(pre, text, post, c);
    CharOf(pre, text, post, m);
    assert p <= c && m < p + |text|;
    KeywordInside(pre, text + post, word, k);
    assert text[k - p..k - p + |word|] == all[k..k + |word|];
    assert forall i | c - p < i < h - p :: text[i] == all[i + p];
    assert SplitsAt(text, word, k - p, c - p, h - p, m - p);
  }

  lemma LabelToLine(pre: string, text: string, post: string, word: string, k: nat, c: nat, h: nat, m: nat)
    requires SplitsAt(text, word, k, c, h, m)
    ensures Splits(pre + text + post, word)
  {
    var all, p := pre + text + post, |pre|;
    assert all[k + p..k + p + |word|] == text[k..k + |word|];
    assert forall i | c + p < i < h + p :: all[i] == text[i - p];
    assert SplitsAt(all, word, k + p, c + p, h + p, m + p);
  }

  // Testing a label alone decides the emitted line.
  lemma LabelDecidesLine(pre: string, text: string, post: string, word: string)
    requires Wrapper(pre, post) && (word == STYLE || word == CLASS_DEF)
    ensures Splits(pre + text + post, word) <==> Splits(text, word)
  {
    if Splits(pre + text + post, word) {
      var k: nat, c: nat, h: nat, m: nat :| SplitsAt(pre + text + post, word, k, c, h, m);
      LineToLabel(pre, text, post, word, k, c, h, m);
    }
    if Splits(text, word) {
      var k: nat, c: nat, h: nat, m: nat :| SplitsAt(text, word, k, c, h, m);
      LabelToLine(pre, text, post, word, k, c, h, m);
    }
  }

  predicate Digits(s: string) {
    forall c | c in s :: '0' <= c <= '9'
  }

  // The node and edge lines the emitter writes are such wrappers, whatever the node numbers.
  lemma EmittedWrappers(i: string, j: string)
    requires Digits(i) && Digits(j)
    ensures Wrapper("  n" + i + "[\"", "\"]")
    ensures Wrapper("  n" + i + " -->|", "| n" + j)
  {
    NoKeyword("  n" + i + "[\"");
    NoKeyword("  n" + i + " -->|");
  }

  lemma NoKeyword(pre: string)
    requires 's' !in pre
    ensures forall k: nat :: !At(pre, k, STYLE) && !At(pre, k, CLASS_DEF)
  {
    forall k: nat ensures !At(pre, k, STYLE) && !At(pre, k, CLASS_DEF) {
      HasChar(pre, k, STYLE, 0);
      HasChar(pre, k, CLASS_DEF, 3);
    }
  }

  lemma HasChar(pre: string, k: nat, word: string, i: nat)
    requires i < |word|
    ensures At(pre, k, word) ==> word[i] in pre
  {
    if At(pre, k, word) {
      assert pre[k..k + |word|][i] == pre[k + i];
    }
  }
}
