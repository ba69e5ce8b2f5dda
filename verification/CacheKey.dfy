/** The key material of a cached validation result (tools/validate_scope.py, build_cache_key,
    _live_tree_digest, _canonical_digest): which file contents it pins. */
module CacheKey {
  import opened Wrappers
  import opened RepoTree
  import opened ChangeDetection

  /** One entry of a command's relevant files. */
  datatype Pin = WholeTree | Single(path: Path)

  /** The live bytes, the paths of the index manifest (or the digest that stands in for an
      absent one), and the tools in use. */
  datatype Live = Live(texts: Tree, manifest: Option<seq<Path>>, fallback: string, toolchain: string)

  datatype Material = Material(
    command: string, level: string, filesDigest: string, filesCount: nat, canonical: string,
    validators: seq<string>, toolchain: string)

  /** Hashing, relevant files and scripts of a command, as arbitrary functions. */
  datatype Keying = Keying(
    hash: Hash, pins: (string, Live) -> seq<Pin>, script: string -> Option<Path>, canonicalFiles: seq<Path>)

  const MISSING := "missing"

  function Sha(k: Keying, texts: Tree, p: Path): string {
    if p in texts then k.hash(texts[p]) else MISSING
  }

  function Line(name: string, sha: string): string {
    name + "=" + sha + ";"
  }

  function TreeLines(k: Keying, texts: Tree, paths: seq<Path>): string {
    if paths == [] then "" else Line(paths[0], Sha(k, texts, paths[0])) + TreeLines(k, texts, paths[1..])
  }

  /** `_live_tree_digest` */
  function TreeDigest(k: Keying, live: Live): string {
    match live.manifest
    case Some(paths) => k.hash(TreeLines(k, live.texts, paths))
    case None => live.fallback
  }

  function PinName(pin: Pin): string {
    match pin case WholeTree => "MANIFEST_SHA" case Single(p) => p
  }

  function PinSha(k: Keying, live: Live, pin: Pin): string {
    match pin case WholeTree => TreeDigest(k, live) case Single(p) => Sha(k, live.texts, p)
  }

  function PinLines(k: Keying, live: Live, pins: seq<Pin>): string {
    if pins == [] then "" else Line(PinName(pins[0]), PinSha(k, live, pins[0])) + PinLines(k, live, pins[1..])
  }

  /** `_command_validator_files`: the script a command runs, if it exists. */
  function Validators(k: Keying, texts: Tree, command: string): seq<string> {
    match k.script(command)
    case Some(p) => if p in texts then [p + "=" + Sha(k, texts, p)] else []
    case None => []
  }

  /** `build_cache_key`, the material */
  function MaterialFor(k: Keying, command: string, level: string, live: Live): Material {
    var pins := k.pins(command, live);
    Material(command, level, k.hash(PinLines(k, live, pins)), |pins|,
             k.hash(TreeLines(k, live.texts, k.canonicalFiles)),
             Validators(k, live.texts, command), live.toolchain)
  }

  // ---- What equal material says ----

  ghost predicate Plain(s: string) {
    '=' !in s && ';' !in s
  }

  /** Hashes do not collide, are no sentinel, and hold no separator; nor do paths hold a `;`. */
  ghost predicate KeyingOk(k: Keying) {
    && Injective(k.hash)
    && (forall text :: Plain(k.hash(text)) && k.hash(text) != MISSING)
    && forall p | p in k.canonicalFiles :: ';' !in p
  }

  function EscapedChar(c: char): string {
    match c case '=' => "%e" case ';' => "%s" case '%' => "%p" case _ => [c]
  }

  function Escaped(text: string): string {
    if text == "" then "" else EscapedChar(text[0]) + Escaped(text[1..])
  }

  /** A hash that meets these assumptions: the text itself, with the separators escaped. */
  function Marked(text: string): string { "#" + Escaped(text) }

  lemma EscapedCharIsPlain(c: char)
    ensures Plain(EscapedChar(c)) && EscapedChar(c) != ""
  {
  }

  lemma PlainAppends(a: string, b: string)
    requires Plain(a) && Plain(b)
    ensures Plain(a + b)
  {
  }

  lemma {:induction false} EscapedIsPlain(text: string)
    ensures Plain(Escaped(text))
  {
    if text != "" {
      EscapedIsPlain(text[1..]);
      EscapedCharIsPlain(text[0]);
      PlainAppends(EscapedChar(text[0]), Escaped(text[1..]));
    }
  }

  /** The first character can be read back. */
  lemma EscapedCharReadsBack(c: char, x: string, d: char, y: string)
    requires EscapedChar(c) + x == EscapedChar(d) + y
    ensures c == d && x == y
  {
    var s, t := EscapedChar(c) + x, EscapedChar(d) + y;
    assert s[0] == EscapedChar(c)[0] && t[0] == EscapedChar(d)[0];
    if s[0] == '%' {
      assert s[1] == EscapedChar(c)[1] && t[1] == EscapedChar(d)[1];
    }
    assert x == s[|EscapedChar(c)|..] && y == t[|EscapedChar(d)|..];
  }

  lemma {:induction false} EscapedIsInjective(a: string, b: string)
    requires Escaped(a) == Escaped(b)
    ensures a == b
  {
    if a != "" { EscapedCharIsPlain(a[0]); }
    if b != "" { EscapedCharIsPlain(b[0]); }
    if a != "" && b != "" {
      EscapedCharReadsBack(a[0], Escaped(a[1..]), b[0], Escaped(b[1..]));
      EscapedIsInjective(a[1..], b[1..]);
      assert a == [a[0]] + a[1..] && b == [b[0]] + b[1..];
    }
  }

  lemma MarkedIsInjective(a: string, b: string)
    requires Marked(a) == Marked(b)
    ensures a == b
  {
    assert Escaped(a) == Marked(a)[1..] && Escaped(b) == Marked(b)[1..];
    EscapedIsInjective(a, b);
  }

  /** So the assumptions on keys can be met. */
  lemma MarkedKeyingIsOk(k: Keying)
    requires k.hash == Marked && forall p | p in k.canonicalFiles :: ';' !in p
    ensures KeyingOk(k)
  {
    forall a, b | k.hash(a) == k.hash(b) ensures a == b { MarkedIsInjective(a, b); }
    forall text ensures Plain(k.hash(text)) && k.hash(text) != MISSING {
      EscapedIsPlain(text);
      PlainAppends("#", Escaped(text));
      assert Marked(text)[0] != MISSING[0];
    }
  }

  ghost predicate LiveOk(live: Live) {
    Plain(live.fallback) && (live.manifest.Some? ==> forall p | p in live.manifest.value :: ';' !in p)
  }

  lemma FirstSemicolon(a: string, x: string, b: string, y: string)
    requires ';' !in a && ';' !in b && a + ";" + x == b + ";" + y
    ensures a == b && x == y
  {
    var s := a + ";" + x;
    assert s[|a|] == ';' && s[|b|] == ';';
    assert forall i | 0 <= i < |a| :: s[i] == a[i];
    assert forall i | 0 <= i < |b| :: s[i] == b[i];
    assert a == s[..|a|] && b == s[..|b|];
    assert x == s[|a| + 1..] && y == s[|b| + 1..];
  }

  /** A line can be read back: its name, its hash, and the lines after it. */
  lemma LineReadsBack(a: string, x: string, more: string, b: string, y: string, rest: string)
    requires ';' !in a && ';' !in b && Plain(x) && Plain(y)
    requires Line(a, x) + more == Line(b, y) + rest
    ensures a == b && x == y && more == rest
  {
    assert Line(a, x) + more == (a + "=" + x) + ";" + more;
    assert Line(b, y) + rest == (b + "=" + y) + ";" + rest;
    FirstSemicolon(a + "=" + x, more, b + "=" + y, rest);
    SplitAtSeparator(a, x, b, y, '=');
  }

  lemma LineIsNotEmpty(a: string, x: string, more: string)
    ensures Line(a, x) + more != ""
  {
    assert |Line(a, x) + more| >= 2;
  }

  ghost predicate SameText(a: Tree, b: Tree, p: Path) {
    (p in a <==> p in b) && (p in a ==> a[p] == b[p])
  }

  lemma ShaPinsText(k: Keying, a: Tree, b: Tree, p: Path)
    requires KeyingOk(k)
    ensures Plain(Sha(k, a, p))
    ensures Sha(k, a, p) == Sha(k, b, p) <==> SameText(a, b, p)
  {
  }

  /** Listings agree exactly if they name the same files with the same contents. */
  lemma {:induction false} TreeLinesPinTexts(k: Keying, a: Tree, b: Tree, ps: seq<Path>, qs: seq<Path>)
    requires KeyingOk(k) && (forall p | p in ps :: ';' !in p) && (forall p | p in qs :: ';' !in p)
    ensures TreeLines(k, a, ps) == TreeLines(k, b, qs) <==> ps == qs && forall p | p in ps :: SameText(a, b, p)
  {
    if ps != [] && qs != [] {
      TreeLinesPinTexts(k, a, b, ps[1..], qs[1..]);
      ShaPinsText(k, a, b, ps[0]);
      ShaPinsText(k, b, a, qs[0]);
      if TreeLines(k, a, ps) == TreeLines(k, b, qs) {
        LineReadsBack(ps[0], Sha(k, a, ps[0]), TreeLines(k, a, ps[1..]), qs[0], Sha(k, b, qs[0]), TreeLines(k, b, qs[1..]));
        assert ps == [ps[0]] + ps[1..] && qs == [qs[0]] + qs[1..];
      }
    } else if ps != [] {
      LineIsNotEmpty(ps[0], Sha(k, a, ps[0]), TreeLines(k, a, ps[1..]));
    } else if qs != [] {
      LineIsNotEmpty(qs[0], Sha(k, b, qs[0]), TreeLines(k, b, qs[1..]));
    }
  }

  /** What one pin holds fast: a file, or every file of the index manifest. */
  ghost predicate SamePinned(k: Keying, a: Live, b: Live, pin: Pin) {
    match pin
    case Single(p) => SameText(a.texts, b.texts, p)
    case WholeTree =>
      if a.manifest.Some? && b.manifest.Some?
      then a.manifest == b.manifest && forall p | p in a.manifest.value :: SameText(a.texts, b.texts, p)
      else TreeDigest(k, a) == TreeDigest(k, b)
  }

  lemma PinShaPins(k: Keying, a: Live, b: Live, pin: Pin)
    requires KeyingOk(k) && LiveOk(a) && LiveOk(b)
    ensures Plain(PinSha(k, a, pin))
    ensures PinSha(k, a, pin) == PinSha(k, b, pin) <==> SamePinned(k, a, b, pin)
  {
    match pin
    case Single(p) => ShaPinsText(k, a.texts, b.texts, p);
    case WholeTree =>
      if a.manifest.Some? && b.manifest.Some? {
        TreeLinesPinTexts(k, a.texts, b.texts, a.manifest.value, b.manifest.value);
      }
  }

  lemma PinNames(p: Pin, q: Pin)
    requires p != Single("MANIFEST_SHA") && q != Single("MANIFEST_SHA")
    ensures PinName(p) == PinName(q) <==> p == q
  {
  }

  ghost predicate Nameable(pin: Pin) {
    ';' !in PinName(pin) && pin != Single("MANIFEST_SHA")
  }

  /** First pins, and so on: the two first lines agree exactly if the pins do. */
  lemma FirstPins(k: Keying, a: Live, b: Live, p: Pin, q: Pin, more: string, rest: string)
    requires KeyingOk(k) && LiveOk(a) && LiveOk(b) && Nameable(p) && Nameable(q)
    ensures Line(PinName(p), PinSha(k, a, p)) + more == Line(PinName(q), PinSha(k, b, q)) + rest
            <==> p == q && SamePinned(k, a, b, p) && more == rest
  {
    PinShaPins(k, a, b, p);
    PinShaPins(k, b, a, q);
    PinNames(p, q);
    if Line(PinName(p), PinSha(k, a, p)) + more == Line(PinName(q), PinSha(k, b, q)) + rest {
      LineReadsBack(PinName(p), PinSha(k, a, p), more, PinName(q), PinSha(k, b, q), rest);
    }
  }

  lemma {:induction false} PinLinesPin(k: Keying, a: Live, b: Live, ps: seq<Pin>, qs: seq<Pin>)
    requires KeyingOk(k) && LiveOk(a) && LiveOk(b)
    requires (forall p | p in ps :: Nameable(p)) && (forall p | p in qs :: Nameable(p))
    ensures PinLines(k, a, ps) == PinLines(k, b, qs) <==> ps == qs && forall p | p in ps :: SamePinned(k, a, b, p)
  {
    if ps != [] && qs != [] {
      PinLinesPin(k, a, b, ps[1..], qs[1..]);
      FirstPins(k, a, b, ps[0], qs[0], PinLines(k, a, ps[1..]), PinLines(k, b, qs[1..]));
      assert ps == [ps[0]] + ps[1..] && qs == [qs[0]] + qs[1..];
    } else if ps != [] {
      LineIsNotEmpty(PinName(ps[0]), PinSha(k, a, ps[0]), PinLines(k, a, ps[1..]));
    } else if qs != [] {
      LineIsNotEmpty(PinName(qs[0]), PinSha(k, b, qs[0]), PinLines(k, b, qs[1..]));
    }
  }

  lemma ValidatorsPin(k: Keying, a: Tree, b: Tree, command: string)
    requires KeyingOk(k)
    ensures Validators(k, a, command) == Validators(k, b, command)
            <==> (k.script(command).Some? ==> SameText(a, b, k.script(command).value))
  {
    match k.script(command)
    case None =>
    case Some(p) =>
      ShaPinsText(k, a, b, p);
      if p in a && p in b && Validators(k, a, command) == Validators(k, b, command) {
        assert Validators(k, a, command)[0] == Validators(k, b, command)[0];
        assert (p + "=" + Sha(k, a, p))[|p| + 1..] == Sha(k, a, p);
        assert (p + "=" + Sha(k, b, p))[|p| + 1..] == Sha(k, b, p);
      }
  }

  /** The tools, every pinned file, every canonical document and the script are the same. */
  ghost predicate PinsAgree(k: Keying, command: string, a: Live, b: Live) {
    && k.pins(command, a) == k.pins(command, b)
    && (forall pin | pin in k.pins(command, a) :: SamePinned(k, a, b, pin))
    && (forall p | p in k.canonicalFiles :: SameText(a.texts, b.texts, p))
    && (k.script(command).Some? ==> SameText(a.texts, b.texts, k.script(command).value))
    && a.toolchain == b.toolchain
  }

  /** Pins have plain names. */
  ghost predicate PinsNameable(k: Keying) {
    forall command, live, pin | pin in k.pins(command, live) :: Nameable(pin)
  }

  /** Two runs of one command have equal key material exactly if the pins agree: the edit of a
      pinned file misses. */
  lemma MaterialPinsContents(k: Keying, command: string, level: string, a: Live, b: Live)
    requires KeyingOk(k) && PinsNameable(k) && LiveOk(a) && LiveOk(b)
    ensures MaterialFor(k, command, level, a) == MaterialFor(k, command, level, b) <==> PinsAgree(k, command, a, b)
  {
    PinLinesPin(k, a, b, k.pins(command, a), k.pins(command, b));
    TreeLinesPinTexts(k, a.texts, b.texts, k.canonicalFiles, k.canonicalFiles);
    ValidatorsPin(k, a.texts, b.texts, command);
  }
}
