/**
  Shader-source composition done by the `onBeforeCompile` callbacks of the figure
  and ghost materials: a fixed block of uniform declarations is prepended to the
  stock fragment shader, then the first `#include <output_fragment>` is replaced
  by the stylisation fragment with JavaScript's `String.prototype.replace`
  (string pattern, string replacement). The uniform map of the shader gains the
  baked-texture uniforms, bound to the very objects held in the material's
  `userData`.
*/
module ShaderSplice {
  import opened Wrappers

  // ---------------------------------------------------------------------------
  // Searching: String.prototype.indexOf
  // ---------------------------------------------------------------------------

  /** `pat` occurs in `s` starting at index `i`. */
  predicate OccursAt(s: string, pat: string, i: nat) {
    i + |pat| <= |s| && s[i..i + |pat|] == pat
  }

  /** `k` is where the leftmost occurrence of `pat` in `s` starts. */
  predicate IsFirstOccurrence(s: string, pat: string, k: nat) {
    OccursAt(s, pat, k) && forall j: nat :: j < k ==> !OccursAt(s, pat, j)
  }

  /** `pat` does not occur anywhere in `s`. */
  ghost predicate Absent(s: string, pat: string) {
    forall j: nat :: !OccursAt(s, pat, j)
  }

  /** Leftmost occurrence of `pat` at or after `from`. */
  function IndexFrom(s: string, pat: string, from: nat): (r: Option<nat>)
    decreases |s| - from
    ensures r.Some? ==> from <= r.value && OccursAt(s, pat, r.value)
    ensures r.Some? ==> forall j: nat :: from <= j < r.value ==> !OccursAt(s, pat, j)
    ensures r.None? ==> forall j: nat :: from <= j ==> !OccursAt(s, pat, j)
  {
    if from + |pat| > |s| then None
    else if s[from..from + |pat|] == pat then Some(from)
    else IndexFrom(s, pat, from + 1)
  }

  /** `s.indexOf(pat)`: the leftmost occurrence, or None where JavaScript gives -1. */
  function IndexOf(s: string, pat: string): (r: Option<nat>)
    ensures r.Some? <==> !Absent(s, pat)
    ensures r.Some? ==> IsFirstOccurrence(s, pat, r.value)
  {
    IndexFrom(s, pat, 0)
  }

  lemma FirstOccurrenceUnique(s: string, pat: string, k: nat, k': nat)
    requires IsFirstOccurrence(s, pat, k) && IsFirstOccurrence(s, pat, k')
    ensures k == k'
  {
  }

  lemma IndexOfIsFirst(s: string, pat: string, k: nat)
    requires IsFirstOccurrence(s, pat, k)
    ensures IndexOf(s, pat) == Some(k)
  {
    assert OccursAt(s, pat, k);
    FirstOccurrenceUnique(s, pat, k, IndexOf(s, pat).value);
  }

  // ---------------------------------------------------------------------------
  // Replacing: String.prototype.replace with a string pattern
  // ---------------------------------------------------------------------------

  /**
    The replacement text JavaScript actually inserts (the abstract operation
    GetSubstitution of ECMA-262, which String.prototype.replace uses): in `repl`,
    `$$` stands for `$`, `$&` for the matched text, `` $` `` for the text before
    the match and `$'` for the text after it. A string pattern has no capture
    groups, so `$1`, `$<` and a `$` before anything else stay as written.
    `str` is the whole subject string, the match being `str[pos..pos + len]`.
  */
  function Substitution(repl: string, str: string, pos: nat, len: nat): (r: string)
    requires pos + len <= |str|
    decreases |repl|
    ensures '$' !in repl ==> r == repl
  {
    if |repl| == 0 then ""
    else if repl[0] == '$' && |repl| >= 2 && repl[1] == '$' then
      "$" + Substitution(repl[2..], str, pos, len)
    else if repl[0] == '$' && |repl| >= 2 && repl[1] == '&' then
      str[pos..pos + len] + Substitution(repl[2..], str, pos, len)
    else if repl[0] == '$' && |repl| >= 2 && repl[1] == '`' then
      str[..pos] + Substitution(repl[2..], str, pos, len)
    else if repl[0] == '$' && |repl| >= 2 && repl[1] == '\'' then
      str[pos + len..] + Substitution(repl[2..], str, pos, len)
    else
      [repl[0]] + Substitution(repl[1..], str, pos, len)
  }

  /** `s.replace(pat, repl)`: only the leftmost occurrence is replaced; no occurrence, no change. */
  function ReplaceFirst(s: string, pat: string, repl: string): (r: string)
    ensures Absent(s, pat) ==> r == s
  {
    match IndexOf(s, pat)
    case None => s
    case Some(i) => s[..i] + Substitution(repl, s, i, |pat|) + s[i + |pat|..]
  }

  /** With the leftmost occurrence at `k`: the text before it, the expanded replacement, the text after it. */
  lemma ReplaceFirstAt(s: string, pat: string, repl: string, k: nat)
    requires IsFirstOccurrence(s, pat, k)
    ensures k + |pat| <= |s|
    ensures ReplaceFirst(s, pat, repl) == s[..k] + Substitution(repl, s, k, |pat|) + s[k + |pat|..]
  {
    assert OccursAt(s, pat, k);
    IndexOfIsFirst(s, pat, k);
  }

  /** With a `$`-free replacement the marker is swapped for the replacement verbatim. */
  lemma ReplaceFirstLiteral(s: string, pat: string, repl: string, k: nat)
    requires IsFirstOccurrence(s, pat, k) && '$' !in repl
    ensures ReplaceFirst(s, pat, repl) == s[..k] + repl + s[k + |pat|..]
  {
    ReplaceFirstAt(s, pat, repl, k);
  }

  /** Occurrences of `pat` after the replaced one are still in the result, shifted by the change in length. */
  lemma ReplaceFirstKeepsLaterOccurrences(s: string, pat: string, repl: string, k: nat, j: nat)
    requires IsFirstOccurrence(s, pat, k)
    requires k + |pat| <= j && OccursAt(s, pat, j)
    ensures OccursAt(ReplaceFirst(s, pat, repl), pat, j - |pat| + |Substitution(repl, s, k, |pat|)|)
  {
    assert OccursAt(s, pat, k);
    SpliceKeepsLaterOccurrence(s, pat, Substitution(repl, s, k, |pat|), k, j);
    ReplaceFirstAt(s, pat, repl, k);
  }

  /** Replacing `s[k..k + |pat|]` by `e` keeps an occurrence at `j` past it, shifted. */
  lemma SpliceKeepsLaterOccurrence(s: string, pat: string, e: string, k: nat, j: nat)
    requires k + |pat| <= j && OccursAt(s, pat, j)
    ensures OccursAt(s[..k] + e + s[k + |pat|..], pat, j - |pat| + |e|)
  {
    var front, tail := s[..k] + e, s[k + |pat|..];
    assert |front| == k + |e|;
    OccursInSuffix(s, pat, k + |pat|, j);
    OccursAfterPrefix(front, tail, pat, j - (k + |pat|));
  }

  lemma OccursInSuffix(s: string, pat: string, m: nat, j: nat)
    requires m <= j && OccursAt(s, pat, j)
    ensures OccursAt(s[m..], pat, j - m)
  {
    assert s[m..][j - m..j - m + |pat|] == s[j..j + |pat|];
  }

  lemma OccursAfterPrefix(a: string, t: string, pat: string, d: nat)
    requires OccursAt(t, pat, d)
    ensures OccursAt(a + t, pat, |a| + d)
  {
    assert (a + t)[|a| + d..|a| + d + |pat|] == t[d..d + |pat|];
  }

  // ---------------------------------------------------------------------------
  // The splice done by onBeforeCompile
  // ---------------------------------------------------------------------------

  /** The injection marker of three.js's stock fragment shader. */
  const Marker: string := "#include <output_fragment>"

  /** One GLSL uniform declaration line: `uniform <type> <name>;` and a newline. */
  function Declaration(glslType: string, name: string): string {
    "uniform " + glslType + " " + name + ";\n"
  }

  /**
    Declarations prepended for the figure material (and by the single-subject
    page), in this order: "uniform sampler2D depthBaked;\n",
    "uniform sampler2D normalBaked;\n", "uniform vec2 windowDims;\n".
  */
  const FigureHeader: string :=
    Declaration("sampler2D", "depthBaked") + Declaration("sampler2D", "normalBaked") + Declaration("vec2", "windowDims")

  /** Declarations prepended for the ghost material: the figure's, then "uniform float time;\n". */
  const GhostHeader: string := FigureHeader + Declaration("float", "time")

  /**
    The marker cannot start inside `header`: its first character does not occur
    there. For the two headers and the `#`-led marker this holds.
  */
  predicate Guarded(header: string, marker: string) {
    |marker| > 0 && marker[0] !in header
  }

  /** Prepend `header`, then replace the first `marker` of the result by `frag`. */
  function Compose(header: string, src: string, marker: string, frag: string): (r: string)
    ensures Guarded(header, marker) ==> header <= r
  {
    assert Guarded(header, marker) ==> header <= ReplaceFirst(header + src, marker, frag) by {
      if Guarded(header, marker) { SpliceKeepsHeader(header, src, marker, frag); }
    }
    ReplaceFirst(header + src, marker, frag)
  }

  /** The replacement cannot start inside a guarded header, so the header survives. */
  lemma SpliceKeepsHeader(header: string, src: string, marker: string, frag: string)
    requires Guarded(header, marker)
    ensures header <= ReplaceFirst(header + src, marker, frag)
  {
    HeaderHidesNoMarker(header, src, marker);
    var s := header + src;
    match IndexOf(s, marker)
    case None =>
    case Some(i) =>
      assert s[..i][..|header|] == header;
  }

  /** Neither header contains `#`, the first character of the marker. */
  lemma HeadersAreGuarded()
    ensures Guarded(FigureHeader, Marker) && Guarded(GhostHeader, Marker)
  {
    assert Marker[0] == '#';
    DeclarationHasNoHash("sampler2D", "depthBaked");
    DeclarationHasNoHash("sampler2D", "normalBaked");
    DeclarationHasNoHash("vec2", "windowDims");
    DeclarationHasNoHash("float", "time");
  }

  lemma DeclarationHasNoHash(glslType: string, name: string)
    requires '#' !in glslType && '#' !in name
    ensures '#' !in Declaration(glslType, name)
  {
  }

  /**
    A guarded header hides no marker: no occurrence in `header + src` starts
    inside the header, and the occurrences after it are those of `src`, shifted.
  */
  lemma HeaderHidesNoMarker(header: string, src: string, marker: string)
    requires Guarded(header, marker)
    ensures forall j: nat :: j < |header| ==> !OccursAt(header + src, marker, j)
    ensures forall j: nat :: OccursAt(header + src, marker, |header| + j) <==> OccursAt(src, marker, j)
  {
    forall j: nat | j < |header| ensures !OccursAt(header + src, marker, j) {
      assert (header + src)[j] == header[j] != marker[0];
    }
    forall j: nat ensures OccursAt(header + src, marker, |header| + j) <==> OccursAt(src, marker, j) {
      if |header| + j + |marker| <= |header + src| {
        assert (header + src)[|header| + j..|header| + j + |marker|] == src[j..j + |marker|];
      }
    }
  }

  /** Where the first marker of the composed text lies: where the first marker of `src` lies, after the header. */
  lemma ComposeFindsMarkerInSource(header: string, src: string, marker: string, k: nat)
    requires Guarded(header, marker)
    ensures IsFirstOccurrence(header + src, marker, |header| + k) <==> IsFirstOccurrence(src, marker, k)
  {
    HeaderHidesNoMarker(header, src, marker);
    if IsFirstOccurrence(src, marker, k) {
      forall j: nat | j < |header| + k ensures !OccursAt(header + src, marker, j) {
        if j >= |header| {
          assert !OccursAt(src, marker, j - |header|);
        }
      }
    }
    if IsFirstOccurrence(header + src, marker, |header| + k) {
      forall j: nat | j < k ensures !OccursAt(src, marker, j) {
        assert !OccursAt(header + src, marker, |header| + j);
      }
    }
  }

  /** Without a marker in `src`, the result is the header followed by the untouched source: no error, no other change. */
  lemma ComposeWithoutMarker(header: string, src: string, marker: string, frag: string)
    requires Guarded(header, marker) && Absent(src, marker)
    ensures Compose(header, src, marker, frag) == header + src
  {
    HeaderHidesNoMarker(header, src, marker);
    forall j: nat ensures !OccursAt(header + src, marker, j) {
      if j >= |header| {
        assert !OccursAt(src, marker, j - |header|);
      }
    }
  }

  /**
    With the first marker of `src` at `k`: the composed text up to the marker
    (the header and `src[..k]`), then the expanded fragment, then the rest of
    the source verbatim.
  */
  lemma ComposeWithMarker(header: string, src: string, marker: string, frag: string, k: nat)
    requires Guarded(header, marker) && IsFirstOccurrence(src, marker, k)
    ensures k + |marker| <= |src|
    ensures Compose(header, src, marker, frag) ==
      (header + src)[..|header| + k] + Substitution(frag, header + src, |header| + k, |marker|) +
      (header + src)[|header| + k + |marker|..]
  {
    ComposeFindsMarkerInSource(header, src, marker, k);
    ReplaceFirstAt(header + src, marker, frag, |header| + k);
  }

  lemma ComposeLiteralAt(header: string, src: string, marker: string, frag: string, k: nat)
    requires Guarded(header, marker) && '$' !in frag && IsFirstOccurrence(src, marker, k)
    ensures k + |marker| <= |src|
    ensures Compose(header, src, marker, frag) ==
      (header + src)[..|header| + k] + frag + (header + src)[|header| + k + |marker|..]
  {
    ComposeFindsMarkerInSource(header, src, marker, k);
    ReplaceFirstLiteral(header + src, marker, frag, |header| + k);
  }

  /** The usual case, a fragment without `$`: the fragment text stands where the marker stood, at `|header| + k`. */
  lemma ComposeInjectsFragment(header: string, src: string, marker: string, frag: string, k: nat)
    requires Guarded(header, marker) && '$' !in frag && IsFirstOccurrence(src, marker, k)
    ensures Compose(header, src, marker, frag) == header + (src[..k] + frag + src[k + |marker|..])
  {
    ComposeLiteralAt(header, src, marker, frag, k);
    SpliceAfterHeader(header, src, k, |marker|, frag);
  }

  /** The fragment text can be read back at `|header| + k`, where the marker stood. */
  lemma ComposePlacesFragment(header: string, src: string, marker: string, frag: string, k: nat)
    requires Guarded(header, marker) && '$' !in frag && IsFirstOccurrence(src, marker, k)
    ensures |header| + k + |frag| <= |Compose(header, src, marker, frag)|
    ensures Compose(header, src, marker, frag)[|header| + k..|header| + k + |frag|] == frag
  {
    ComposeInjectsFragment(header, src, marker, frag, k);
    FragmentReadsBack(header, src[..k], frag, src[k + |marker|..]);
  }

  lemma FragmentReadsBack(header: string, front: string, e: string, back: string)
    ensures (header + (front + e + back))[|header| + |front|..|header| + |front| + |e|] == e
  {
    assert (header + (front + e + back))[|header| + |front|..|header| + |front| + |e|] == (front + e + back)[|front|..|front| + |e|];
  }

  /** For a `$`-free fragment, composing is the header followed by the source with its first marker replaced. */
  lemma ComposeIsHeaderThenSplice(header: string, src: string, marker: string, frag: string)
    requires Guarded(header, marker) && '$' !in frag
    ensures Compose(header, src, marker, frag) == header + ReplaceFirst(src, marker, frag)
  {
    match IndexOf(src, marker)
    case None =>
      ComposeWithoutMarker(header, src, marker, frag);
    case Some(k) =>
      ComposeInjectsFragment(header, src, marker, frag, k);
      ReplaceFirstLiteral(src, marker, frag, k);
  }

  /** Splicing `e` over `src[i..i + n]` commutes with putting `header` in front. */
  lemma SpliceAfterHeader(header: string, src: string, i: nat, n: nat, e: string)
    requires i + n <= |src|
    ensures (header + src)[..|header| + i] + e + (header + src)[|header| + i + n..] ==
      header + (src[..i] + e + src[i + n..])
  {
    assert (header + src)[..|header| + i] == header + src[..i];
    assert (header + src)[|header| + i + n..] == src[i + n..];
  }

  /** Only the first marker is replaced: every later marker of `src` is still in the composed text. */
  lemma ComposeKeepsLaterMarkers(header: string, src: string, marker: string, frag: string, k: nat, j: nat)
    requires Guarded(header, marker) && '$' !in frag
    requires IsFirstOccurrence(src, marker, k) && k + |marker| <= j && OccursAt(src, marker, j)
    ensures OccursAt(Compose(header, src, marker, frag), marker, |header| + j - |marker| + |frag|)
  {
    ComposeFindsMarkerInSource(header, src, marker, k);
    HeaderHidesNoMarker(header, src, marker);
    ReplaceFirstKeepsLaterOccurrences(header + src, marker, frag, |header| + k, |header| + j);
  }

  /** The figure callback's fragment shader (and the single-subject page's). */
  function FigureFragment(src: string, figureShader: string): (r: string)
    ensures FigureHeader <= r
    ensures '$' !in figureShader ==> r == FigureHeader + ReplaceFirst(src, Marker, figureShader)
  {
    HeadersAreGuarded();
    assert '$' !in figureShader ==> Compose(FigureHeader, src, Marker, figureShader) == FigureHeader + ReplaceFirst(src, Marker, figureShader) by {
      if '$' !in figureShader { ComposeIsHeaderThenSplice(FigureHeader, src, Marker, figureShader); }
    }
    Compose(FigureHeader, src, Marker, figureShader)
  }

  /** The ghost callback's fragment shader. */
  function GhostFragment(src: string, ghostShader: string): (r: string)
    ensures GhostHeader <= r
    ensures '$' !in ghostShader ==> r == GhostHeader + ReplaceFirst(src, Marker, ghostShader)
  {
    HeadersAreGuarded();
    assert '$' !in ghostShader ==> Compose(GhostHeader, src, Marker, ghostShader) == GhostHeader + ReplaceFirst(src, Marker, ghostShader) by {
      if '$' !in ghostShader { ComposeIsHeaderThenSplice(GhostHeader, src, Marker, ghostShader); }
    }
    Compose(GhostHeader, src, Marker, ghostShader)
  }

  // ---------------------------------------------------------------------------
  // The uniform map
  // ---------------------------------------------------------------------------

  /** `userData[name]` as JavaScript reads it: None stands for `undefined`. */
  function Get<V>(userData: map<string, V>, name: string): Option<V> {
    if name in userData then Some(userData[name]) else None
  }

  /** Names bound by the figure callback, in assignment order. */
  const FigureUniforms: seq<string> := ["depthBaked", "normalBaked", "windowDims"]

  /** Names bound by the ghost callback, in assignment order. */
  const GhostUniforms: seq<string> := ["time", "depthBaked", "normalBaked", "windowDims"]

  /**
    `shader.uniforms[n] = userData[n]` for each `n` of `names` in turn: each named
    key is bound to the material's own uniform object, every other key keeps its value.
  */
  function BindUniforms<V>(uniforms: map<string, Option<V>>, userData: map<string, V>, names: seq<string>)
    : (r: map<string, Option<V>>)
    decreases |names|
    ensures r.Keys == uniforms.Keys + set n | n in names
    ensures forall n :: n in names ==> r[n] == Get(userData, n)
    ensures forall n :: n in uniforms && n !in names ==> r[n] == uniforms[n]
  {
    if names == [] then uniforms
    else BindUniforms(uniforms[names[0] := Get(userData, names[0])], userData, names[1..])
  }

  /** A map with exactly the keys and values BindUniforms promises is the map BindUniforms builds. */
  lemma BindingDetermined<V>(uniforms: map<string, Option<V>>, userData: map<string, V>, names: seq<string>,
                             m: map<string, Option<V>>)
    requires m.Keys == uniforms.Keys + set n | n in names
    requires forall n :: n in names ==> m[n] == Get(userData, n)
    requires forall n :: n in uniforms && n !in names ==> m[n] == uniforms[n]
    ensures m == BindUniforms(uniforms, userData, names)
  {
    var r := BindUniforms(uniforms, userData, names);
    assert forall n :: n in m ==> m[n] == r[n];
  }

  /** Binding the figure's names is the three map updates the callback performs, in order. */
  lemma FigureBindingUnfolds<V>(uniforms: map<string, Option<V>>, userData: map<string, V>)
    ensures BindUniforms(uniforms, userData, FigureUniforms) ==
      uniforms["depthBaked" := Get(userData, "depthBaked")]["normalBaked" := Get(userData, "normalBaked")]
              ["windowDims" := Get(userData, "windowDims")]
  {
    var m := uniforms["depthBaked" := Get(userData, "depthBaked")]["normalBaked" := Get(userData, "normalBaked")]
                     ["windowDims" := Get(userData, "windowDims")];
    BindingDetermined(uniforms, userData, FigureUniforms, m);
  }

  /** Binding the ghost's names is binding `time`, then the figure's names. */
  lemma GhostBindingUnfolds<V>(uniforms: map<string, Option<V>>, userData: map<string, V>)
    ensures BindUniforms(uniforms, userData, GhostUniforms) ==
      BindUniforms(uniforms["time" := Get(userData, "time")], userData, FigureUniforms)
  {
    assert GhostUniforms[1..] == FigureUniforms;
  }

  /** The `shader` object three.js hands to `onBeforeCompile`; the callbacks update it in place. */
  class Shader<V> {
    var uniforms: map<string, Option<V>>
    var fragmentShader: string

    constructor (uniforms: map<string, Option<V>>, fragmentShader: string)
      ensures this.uniforms == uniforms && this.fragmentShader == fragmentShader
    {
      this.uniforms := uniforms;
      this.fragmentShader := fragmentShader;
    }
  }

  /** The figure material's `onBeforeCompile`; the single-subject page's is the same code. */
  method FigureOnBeforeCompile<V>(shader: Shader<V>, userData: map<string, V>, figureShader: string)
    modifies shader
    ensures shader.uniforms == BindUniforms(old(shader.uniforms), userData, FigureUniforms)
    ensures shader.fragmentShader == FigureFragment(old(shader.fragmentShader), figureShader)
  {
    ghost var uniforms, src := shader.uniforms, shader.fragmentShader;
    shader.uniforms := shader.uniforms["depthBaked" := Get(userData, "depthBaked")];
    shader.uniforms := shader.uniforms["normalBaked" := Get(userData, "normalBaked")];
    shader.uniforms := shader.uniforms["windowDims" := Get(userData, "windowDims")];
    shader.fragmentShader := FigureHeader + shader.fragmentShader;
    shader.fragmentShader := ReplaceFirst(shader.fragmentShader, Marker, figureShader);
    FigureBindingUnfolds(uniforms, userData);
  }

  /** The ghost material's `onBeforeCompile`: also binds and declares `time`. */
  method GhostOnBeforeCompile<V>(shader: Shader<V>, userData: map<string, V>, ghostShader: string)
    modifies shader
    ensures shader.uniforms == BindUniforms(old(shader.uniforms), userData, GhostUniforms)
    ensures shader.fragmentShader == GhostFragment(old(shader.fragmentShader), ghostShader)
  {
    ghost var uniforms, src := shader.uniforms, shader.fragmentShader;
    shader.uniforms := shader.uniforms["time" := Get(userData, "time")];
    shader.uniforms := shader.uniforms["depthBaked" := Get(userData, "depthBaked")];
    shader.uniforms := shader.uniforms["normalBaked" := Get(userData, "normalBaked")];
    shader.uniforms := shader.uniforms["windowDims" := Get(userData, "windowDims")];
    shader.fragmentShader := GhostHeader + shader.fragmentShader;
    shader.fragmentShader := ReplaceFirst(shader.fragmentShader, Marker, ghostShader);
    GhostBindingUnfolds(uniforms, userData);
    FigureBindingUnfolds(uniforms["time" := Get(userData, "time")], userData);
  }
}
