/**
  BCP-47 well-formedness: one greedy forward pass, against the grammar of section 2.1 of RFC 5646 read
  nondeterministically.
*/
module LanguageTags {
  import opened Core

  type Subtags = seq<seq<u8>>

  const DASH: u8 := 0x2d

  // ------------------------------------------------------------ bytes and classes

  predicate IsUpper(b: u8) {
    0x41 <= b <= 0x5a
  }

  predicate IsLower(b: u8) {
    0x61 <= b <= 0x7a
  }

  predicate IsDigit(b: u8) {
    0x30 <= b <= 0x39
  }

  predicate IsLetter(b: u8) {
    IsUpper(b) || IsLower(b)
  }

  function ToLower(b: u8): u8 {
    if IsUpper(b) then b + 0x20 else b
  }

  /** `eq_ignore_ascii_case`. */
  predicate SameCaseless(a: seq<u8>, b: seq<u8>) {
    |a| == |b| && forall i | 0 <= i < |a| :: ToLower(a[i]) == ToLower(b[i])
  }

  predicate IsAlpha(s: seq<u8>, lo: nat, hi: nat) {
    lo <= |s| <= hi && forall i | 0 <= i < |s| :: IsLetter(s[i])
  }

  predicate IsDigits(s: seq<u8>, n: nat) {
    |s| == n && forall i | 0 <= i < |s| :: IsDigit(s[i])
  }

  predicate IsAlphanumeric(s: seq<u8>, lo: nat, hi: nat) {
    lo <= |s| <= hi && forall i | 0 <= i < |s| :: IsLetter(s[i]) || IsDigit(s[i])
  }

  predicate IsPrivateMarker(s: seq<u8>) {
    |s| == 1 && ToLower(s[0]) == 0x78
  }

  predicate IsSingleton(s: seq<u8>) {
    IsAlphanumeric(s, 1, 1) && !IsPrivateMarker(s)
  }

  predicate IsVariant(s: seq<u8>) {
    IsAlphanumeric(s, 5, 8) || (IsAlphanumeric(s, 4, 4) && IsDigit(s[0]))
  }

  predicate IsScript(s: seq<u8>) {
    IsAlpha(s, 4, 4)
  }

  predicate IsRegion(s: seq<u8>) {
    IsAlpha(s, 2, 2) || IsDigits(s, 3)
  }

  predicate IsExtlangPart(s: seq<u8>) {
    IsAlpha(s, 3, 3)
  }

  predicate IsBody(s: seq<u8>) {
    IsAlphanumeric(s, 2, 8)
  }

  predicate IsPrivatePart(s: seq<u8>) {
    IsAlphanumeric(s, 1, 8)
  }

  /** The subtags between the dashes; always at least one, possibly empty. */
  function Split(s: seq<u8>): (l: Subtags)
    ensures |l| >= 1
  {
    if s == [] then [[]]
    else
      var rest := Split(s[1..]);
      if s[0] == DASH then [[]] + rest else [[s[0]] + rest[0]] + rest[1..]
  }

  function Join(l: Subtags): seq<u8> {
    if l == [] then [] else if |l| == 1 then l[0] else l[0] + [DASH] + Join(l[1..])
  }

  // ------------------------------------------------------------ the grammar

  predicate All(l: Subtags, p: seq<u8> -> bool) {
    forall i | 0 <= i < |l| :: p(l[i])
  }

  /** Between none and n subtags of one class, then `rest`; the cut may fall anywhere. */
  ghost predicate Repeated(p: seq<u8> -> bool, n: nat, rest: Subtags -> bool, l: Subtags) {
    exists k: nat | k <= |l| && k <= n :: All(l[..k], p) && rest(l[k..])
  }

  /** privateuse = "x" 1*("-" (1*8alphanum)) */
  predicate PrivateUse(l: Subtags) {
    |l| >= 2 && IsPrivateMarker(l[0]) && All(l[1..], IsPrivatePart)
  }

  /** extlang = 3ALPHA *2("-" 3ALPHA) */
  predicate Extlang(l: Subtags) {
    1 <= |l| <= 3 && All(l, IsExtlangPart)
  }

  /** language = 2*3ALPHA ["-" extlang] / 4ALPHA / 5*8ALPHA */
  predicate Language(l: Subtags) {
    || (|l| >= 1 && IsAlpha(l[0], 2, 3) && (l[1..] == [] || Extlang(l[1..])))
    || (|l| == 1 && (IsAlpha(l[0], 4, 4) || IsAlpha(l[0], 5, 8)))
  }

  /** extension = singleton 1*("-" (2*8alphanum)) */
  predicate Extension(l: Subtags) {
    |l| >= 2 && IsSingleton(l[0]) && All(l[1..], IsBody)
  }

  /** *("-" extension) ["-" privateuse] */
  ghost predicate AfterVariants(l: Subtags)
    decreases |l|
  {
    l == [] || PrivateUse(l) || exists k: nat | 2 <= k <= |l| :: Extension(l[..k]) && AfterVariants(l[k..])
  }

  /** *("-" variant) and what follows */
  ghost predicate AfterRegion(l: Subtags) {
    Repeated(IsVariant, |l|, AfterVariants, l)
  }

  /** ["-" region] and what follows */
  ghost predicate AfterScript(l: Subtags) {
    AfterRegion(l) || (l != [] && IsRegion(l[0]) && AfterRegion(l[1..]))
  }

  /** ["-" script] and what follows */
  ghost predicate AfterLanguage(l: Subtags) {
    AfterScript(l) || (l != [] && IsScript(l[0]) && AfterScript(l[1..]))
  }

  /** langtag = language ["-" script] ["-" region] *("-" variant) *("-" extension) ["-" privateuse] */
  ghost predicate LangTag(l: Subtags) {
    exists k: nat | 1 <= k <= |l| :: Language(l[..k]) && AfterLanguage(l[k..])
  }

  const IRREGULAR: seq<string> := [
    "en-GB-oed", "i-ami", "i-bnn", "i-default", "i-enochian", "i-hak", "i-klingon", "i-lux", "i-mingo", "i-navajo",
    "i-pwn", "i-tao", "i-tay", "i-tsu", "sgn-BE-FR", "sgn-BE-NL", "sgn-CH-DE"]

  const REGULAR: seq<string> := [
    "art-lojban", "cel-gaulish", "no-bok", "no-nyn", "zh-guoyu", "zh-hakka", "zh-min", "zh-min-nan", "zh-xiang"]

  function Ascii(c: char): u8 {
    if c as int < 0x80 then c as int else 0
  }

  function Bytes(text: string): (b: seq<u8>)
    ensures |b| == |text|
    ensures forall i | 0 <= i < |text| :: b[i] == Ascii(text[i])
  {
    seq(|text|, i requires 0 <= i < |text| => Ascii(text[i]))
  }

  predicate IsOneOf(literals: seq<string>, tag: seq<u8>) {
    exists i | 0 <= i < |literals| :: SameCaseless(Bytes(literals[i]), tag)
  }

  /** Language-Tag = langtag / privateuse / grandfathered, over bytes. */
  ghost predicate LanguageTag(tag: seq<u8>) {
    || (exists l: Subtags :: l != [] && Join(l) == tag && (LangTag(l) || PrivateUse(l)))
    || IsOneOf(IRREGULAR, tag) || IsOneOf(REGULAR, tag)
  }

  // ------------------------------------------------------------ the greedy pass

  predicate GreedyPrivate(l: Subtags) {
    l != [] && All(l, IsPrivatePart)
  }

  predicate GreedyEnd(l: Subtags) {
    if l != [] && IsPrivateMarker(l[0]) then GreedyPrivate(l[1..]) else l == []
  }

  predicate GreedyExtensions(l: Subtags)
    decreases |l|, 0
  {
    if l != [] && IsSingleton(l[0]) then |l| >= 2 && IsBody(l[1]) && GreedyBody(l[2..]) else GreedyEnd(l)
  }

  predicate GreedyBody(l: Subtags)
    decreases |l|, 1
  {
    if l != [] && IsBody(l[0]) then GreedyBody(l[1..]) else GreedyExtensions(l)
  }

  predicate GreedyVariants(l: Subtags) {
    if l != [] && IsVariant(l[0]) then GreedyVariants(l[1..]) else GreedyExtensions(l)
  }

  predicate GreedyRegion(l: Subtags) {
    if l != [] && IsRegion(l[0]) then GreedyVariants(l[1..]) else GreedyVariants(l)
  }

  predicate GreedyScript(l: Subtags) {
    if l != [] && IsScript(l[0]) then GreedyRegion(l[1..]) else GreedyRegion(l)
  }

  predicate GreedyExtlang(l: Subtags, left: nat)
    decreases left
  {
    if left > 0 && l != [] && IsExtlangPart(l[0]) then GreedyExtlang(l[1..], left - 1) else GreedyScript(l)
  }

  predicate GreedyTag(l: Subtags)
    requires l != []
  {
    if IsPrivateMarker(l[0]) then GreedyPrivate(l[1..])
    else if !IsAlpha(l[0], 2, 8) then false
    else if |l[0]| <= 3 then GreedyExtlang(l[1..], 3)
    else GreedyScript(l[1..])
  }

  predicate WellFormed(tag: seq<u8>) {
    IsOneOf(IRREGULAR, tag) || GreedyTag(Split(tag))
  }

  /** `is_well_formed_language_tag`: a forward pass over the subtags, with no backtracking. */
  method IsWellFormedLanguageTag(tag: seq<u8>) returns (ok: bool)
    ensures ok <==> LanguageTag(tag)
    ensures ok <==> WellFormed(tag)
  {
    hide GreedyScript, GreedyExtlang, GreedyPrivate, IsAlpha, LanguageTag, IsOneOf, Split;
    GreedyIsTheGrammar(tag);
    if IsOneOf(IRREGULAR, tag) {
      return true;
    }
    var subtags := Split(tag);
    var first := subtags[0];
    if IsPrivateMarker(first) {
      return GreedyPrivate(subtags[1..]);
    }
    if !IsAlpha(first, 2, 8) {
      return false;
    }
    var i := 1;
    if |first| <= 3 {
      i := SkipExtlang(subtags);
    }
    ok := PassScript(subtags, i);
  }

  method SkipExtlang(subtags: Subtags) returns (i: nat)
    requires subtags != []
    ensures 1 <= i <= |subtags| && (GreedyScript(subtags[i..]) <==> GreedyExtlang(subtags[1..], 3))
  {
    hide GreedyScript, IsExtlangPart;
    i := 1;
    var left := 3;
    while left > 0 && i < |subtags| && IsExtlangPart(subtags[i])
      invariant 1 <= i <= |subtags| && (GreedyExtlang(subtags[i..], left) <==> GreedyExtlang(subtags[1..], 3))
    {
      assert subtags[i..][1..] == subtags[i + 1..];
      i, left := i + 1, left - 1;
    }
  }

  method PassScript(subtags: Subtags, start: nat) returns (ok: bool)
    requires start <= |subtags|
    ensures ok <==> GreedyScript(subtags[start..])
  {
    hide GreedyExtensions, IsScript, IsRegion, IsVariant;
    var i := start;
    if i < |subtags| && IsScript(subtags[i]) {
      assert subtags[i..][1..] == subtags[i + 1..];
      i := i + 1;
    }
    if i < |subtags| && IsRegion(subtags[i]) {
      assert subtags[i..][1..] == subtags[i + 1..];
      i := i + 1;
    }
    ghost var goal := GreedyVariants(subtags[i..]);
    assert goal <==> GreedyScript(subtags[start..]);
    while i < |subtags| && IsVariant(subtags[i])
      invariant i <= |subtags| && (GreedyVariants(subtags[i..]) <==> goal)
    {
      assert subtags[i..][1..] == subtags[i + 1..];
      i := i + 1;
    }
    ok := PassExtensions(subtags, i);
  }

  method PassExtensions(subtags: Subtags, start: nat) returns (ok: bool)
    requires start <= |subtags|
    ensures ok <==> GreedyExtensions(subtags[start..])
  {
    hide IsSingleton, IsBody, IsPrivateMarker, GreedyPrivate;
    var i := start;
    ghost var goal := GreedyExtensions(subtags[start..]);
    while i < |subtags| && IsSingleton(subtags[i])
      invariant i <= |subtags| && (GreedyExtensions(subtags[i..]) <==> goal)
    {
      if i + 1 == |subtags| || !IsBody(subtags[i + 1]) {
        return false;
      }
      assert subtags[i..][2..] == subtags[i + 2..];
      i := SkipBody(subtags, i + 2);
    }
    if i < |subtags| && IsPrivateMarker(subtags[i]) {
      assert subtags[i..][1..] == subtags[i + 1..];
      return GreedyPrivate(subtags[i + 1..]);
    }
    ok := i == |subtags|;
  }

  method SkipBody(subtags: Subtags, start: nat) returns (i: nat)
    requires start <= |subtags|
    ensures start <= i <= |subtags| && (GreedyExtensions(subtags[i..]) <==> GreedyBody(subtags[start..]))
  {
    hide GreedyExtensions, IsBody;
    i := start;
    while i < |subtags| && IsBody(subtags[i])
      invariant start <= i <= |subtags| && (GreedyBody(subtags[i..]) <==> GreedyBody(subtags[start..]))
    {
      assert subtags[i..][1..] == subtags[i + 1..];
      i := i + 1;
    }
  }

  // ------------------------------------------------------------ greedy equals nondeterministic

  /** The length and first byte that tell the classes apart. */
  lemma ClassShapes(s: seq<u8>)
    ensures IsSingleton(s) || IsPrivateMarker(s) ==> |s| == 1
    ensures !(IsSingleton(s) && IsPrivateMarker(s))
    ensures IsVariant(s) ==> |s| >= 5 || (|s| == 4 && !IsLetter(s[0]))
    ensures IsScript(s) ==> |s| == 4 && IsLetter(s[0])
    ensures IsRegion(s) ==> |s| == 2 || (|s| == 3 && !IsLetter(s[0]))
    ensures IsExtlangPart(s) ==> |s| == 3 && IsLetter(s[0])
    ensures IsBody(s) ==> |s| >= 2
  {
  }

  /** Where what follows cannot start with the repeated class, taking the class greedily loses nothing. */
  lemma RepeatedIsGreedy(p: seq<u8> -> bool, n: nat, rest: Subtags -> bool, l: Subtags)
    requires l == [] || !p(l[0]) || !rest(l)
    ensures Repeated(p, n, rest, l) <==>
            if n > 0 && l != [] && p(l[0]) then Repeated(p, n - 1, rest, l[1..])
            else rest(l)
  {
    assert l[0..] == l;
    if n > 0 && l != [] && p(l[0]) {
      if Repeated(p, n, rest, l) {
        var k: nat :| k <= |l| && k <= n && All(l[..k], p) && rest(l[k..]);
        assert l[1..][..k - 1] == l[..k][1..] && l[1..][k - 1..] == l[k..];
      }
      if Repeated(p, n - 1, rest, l[1..]) {
        var k: nat :| k <= |l[1..]| && k <= n - 1 && All(l[1..][..k], p) && rest(l[1..][k..]);
        assert l[..k + 1] == [l[0]] + l[1..][..k] && l[k + 1..] == l[1..][k..];
      }
    } else {
      RepeatedNowhere(p, n, rest, l);
    }
  }

  lemma RepeatedNowhere(p: seq<u8> -> bool, n: nat, rest: Subtags -> bool, l: Subtags)
    requires n == 0 || l == [] || !p(l[0])
    ensures Repeated(p, n, rest, l) <==> rest(l)
  {
    assert l[..0] == [] && l[0..] == l;
    if Repeated(p, n, rest, l) {
      var k: nat :| k <= |l| && k <= n && All(l[..k], p) && rest(l[k..]);
      if k > 0 {
        AllReachesFirst(p, l, k);
      }
    }
  }

  lemma AllReachesFirst(p: seq<u8> -> bool, l: Subtags, k: nat)
    requires 0 < k <= |l| && All(l[..k], p)
    ensures p(l[0])
  {
    assert l[..k][0] == l[0];
  }

  lemma ExtensionStarts(l: Subtags, k: nat)
    requires 2 <= k <= |l| && Extension(l[..k])
    ensures IsSingleton(l[0]) && IsBody(l[1]) && All(l[2..][..k - 2], IsBody)
  {
    hide IsSingleton, IsBody;
    assert l[..k][0] == l[0];
    assert l[..k][1..][0] == l[1];
    assert l[2..][..k - 2] == l[..k][1..][1..];
  }

  lemma ExtensionEnds(l: Subtags, k: nat)
    requires k + 2 <= |l| && IsSingleton(l[0]) && IsBody(l[1]) && All(l[2..][..k], IsBody)
    ensures Extension(l[..k + 2])
  {
    hide IsSingleton, IsBody;
    assert l[..k + 2][1..] == [l[1]] + l[2..][..k];
  }

  /** An extension is its singleton, one body subtag, and any number more. */
  lemma ExtensionOpens(l: Subtags)
    requires l != [] && IsSingleton(l[0])
    ensures AfterVariants(l) <==> |l| >= 2 && IsBody(l[1]) && Repeated(IsBody, |l| - 2, AfterVariants, l[2..])
  {
    hide IsSingleton, IsBody, IsPrivateMarker, Extension, All;
    ClassShapes(l[0]);
    if AfterVariants(l) {
      var k: nat :| 2 <= k <= |l| && Extension(l[..k]) && AfterVariants(l[k..]);
      ExtensionStarts(l, k);
      assert l[2..][k - 2..] == l[k..];
    }
    if |l| >= 2 && IsBody(l[1]) && Repeated(IsBody, |l| - 2, AfterVariants, l[2..]) {
      var k: nat :| k <= |l[2..]| && All(l[2..][..k], IsBody) && AfterVariants(l[2..][k..]);
      ExtensionEnds(l, k);
      assert l[2..][k..] == l[k + 2..];
    }
  }

  /** What may follow the variants starts with a single character. */
  lemma FirstAfterVariants(l: Subtags)
    requires AfterVariants(l) && l != []
    ensures |l[0]| == 1
  {
    if !PrivateUse(l) {
      var k: nat :| 2 <= k <= |l| && Extension(l[..k]) && AfterVariants(l[k..]);
      assert IsSingleton(l[..k][0]);
    }
  }

  lemma {:induction false} ExtensionsAgree(l: Subtags)
    ensures AfterVariants(l) <==> GreedyExtensions(l)
    decreases |l|, 0
  {
    hide IsSingleton, IsBody, IsPrivateMarker, Repeated, Extension, IsPrivatePart;
    if l != [] && IsSingleton(l[0]) {
      ExtensionOpens(l);
      if |l| >= 2 {
        BodiesAgree(l[2..]);
      }
    } else if AfterVariants(l) && !PrivateUse(l) && l != [] {
      NoExtension(l);
    }
  }

  lemma NoExtension(l: Subtags)
    requires l != [] && !IsSingleton(l[0]) && AfterVariants(l)
    ensures PrivateUse(l)
  {
    hide IsSingleton, PrivateUse, Extension;
    if k: nat :| 2 <= k <= |l| && Extension(l[..k]) && AfterVariants(l[k..]) {
      ExtensionStarts(l, k);
    }
  }

  lemma {:induction false} BodiesAgree(l: Subtags)
    ensures Repeated(IsBody, |l|, AfterVariants, l) <==> GreedyBody(l)
    decreases |l|, 1
  {
    hide IsBody, Repeated, AfterVariants, GreedyExtensions;
    ExtensionsAgree(l);
    if l != [] {
      ClassShapes(l[0]);
      if AfterVariants(l) {
        FirstAfterVariants(l);
      }
      if IsBody(l[0]) {
        BodiesAgree(l[1..]);
      }
    }
    RepeatedIsGreedy(IsBody, |l|, AfterVariants, l);
  }

  lemma {:induction false} VariantsAgree(l: Subtags)
    ensures AfterRegion(l) <==> GreedyVariants(l)
  {
    hide IsVariant, Repeated, AfterVariants, GreedyExtensions;
    ExtensionsAgree(l);
    if l != [] {
      ClassShapes(l[0]);
      if AfterVariants(l) {
        FirstAfterVariants(l);
      }
      if IsVariant(l[0]) {
        VariantsAgree(l[1..]);
      }
    }
    RepeatedIsGreedy(IsVariant, |l|, AfterVariants, l);
  }

  /** What may follow the region starts with a variant or a single character. */
  lemma FirstAfterRegion(l: Subtags)
    requires AfterRegion(l) && l != []
    ensures IsVariant(l[0]) || |l[0]| == 1
  {
    hide IsVariant, Repeated;
    if !IsVariant(l[0]) {
      RepeatedNowhere(IsVariant, |l|, AfterVariants, l);
      FirstAfterVariants(l);
    }
  }

  lemma RegionAgrees(l: Subtags)
    ensures AfterScript(l) <==> GreedyRegion(l)
  {
    hide IsVariant, IsRegion, AfterRegion, GreedyVariants;
    VariantsAgree(l);
    if l != [] {
      VariantsAgree(l[1..]);
      ClassShapes(l[0]);
      if AfterRegion(l) {
        FirstAfterRegion(l);
      }
    }
  }

  lemma FirstAfterScript(l: Subtags)
    requires AfterScript(l) && l != []
    ensures IsRegion(l[0]) || IsVariant(l[0]) || |l[0]| == 1
  {
    hide AfterRegion;
    if AfterRegion(l) {
      FirstAfterRegion(l);
    }
  }

  lemma ScriptAgrees(l: Subtags)
    ensures AfterLanguage(l) <==> GreedyScript(l)
  {
    hide IsVariant, IsRegion, IsScript, AfterScript, GreedyRegion;
    RegionAgrees(l);
    if l != [] {
      RegionAgrees(l[1..]);
      ClassShapes(l[0]);
      if AfterScript(l) {
        FirstAfterScript(l);
      }
    }
  }

  lemma FirstAfterLanguage(l: Subtags)
    requires AfterLanguage(l) && l != []
    ensures !IsExtlangPart(l[0])
  {
    hide IsVariant, IsRegion, IsScript, IsExtlangPart, AfterScript;
    ClassShapes(l[0]);
    if AfterScript(l) {
      FirstAfterScript(l);
    }
  }

  lemma {:induction false} ExtlangAgrees(l: Subtags, left: nat)
    ensures Repeated(IsExtlangPart, left, AfterLanguage, l) <==> GreedyExtlang(l, left)
    decreases left
  {
    hide IsExtlangPart, Repeated, AfterLanguage, GreedyScript;
    ScriptAgrees(l);
    if l != [] {
      if AfterLanguage(l) {
        FirstAfterLanguage(l);
      }
      if left > 0 {
        ExtlangAgrees(l[1..], left - 1);
      }
    }
    RepeatedIsGreedy(IsExtlangPart, left, AfterLanguage, l);
  }

  /** The language subtag and its extended language subtags, however the list is cut. */
  lemma LanguageOpens(l: Subtags)
    requires l != []
    ensures LangTag(l) <==>
            || (IsAlpha(l[0], 2, 3) && Repeated(IsExtlangPart, 3, AfterLanguage, l[1..]))
            || (IsAlpha(l[0], 4, 8) && AfterLanguage(l[1..]))
  {
    hide AfterLanguage, IsExtlangPart;
    if LangTag(l) {
      var k: nat :| 1 <= k <= |l| && Language(l[..k]) && AfterLanguage(l[k..]);
      assert l[..k][0] == l[0] && l[..k][1..] == l[1..][..k - 1] && l[1..][k - 1..] == l[k..];
    }
    if IsAlpha(l[0], 2, 3) && Repeated(IsExtlangPart, 3, AfterLanguage, l[1..]) {
      var k: nat :| k <= |l[1..]| && k <= 3 && All(l[1..][..k], IsExtlangPart) && AfterLanguage(l[1..][k..]);
      assert l[..k + 1][0] == l[0] && l[..k + 1][1..] == l[1..][..k] && l[k + 1..] == l[1..][k..];
      assert Language(l[..k + 1]);
    }
    if IsAlpha(l[0], 4, 8) && AfterLanguage(l[1..]) {
      assert l[..1] == [l[0]] && Language(l[..1]);
    }
  }

  /** One pass with no backtracking accepts exactly the lists some reading of the grammar accepts. */
  lemma TagAgrees(l: Subtags)
    requires l != []
    ensures GreedyTag(l) <==> LangTag(l) || PrivateUse(l)
  {
    hide LangTag, Repeated, AfterLanguage, GreedyScript, GreedyExtlang, IsPrivatePart;
    LanguageOpens(l);
    ExtlangAgrees(l[1..], 3);
    ScriptAgrees(l[1..]);
  }

  // ------------------------------------------------------------ from lists of subtags to bytes

  predicate Plain(s: seq<u8>) {
    DASH !in s
  }

  lemma {:induction false} SplitCut(s: seq<u8>, rest: seq<u8>)
    requires Plain(s)
    ensures Split(s) == [s]
    ensures Split(s + [DASH] + rest) == [s] + Split(rest)
  {
    if s == [] {
      assert (s + [DASH] + rest)[1..] == rest;
    } else {
      SplitCut(s[1..], rest);
      assert (s + [DASH] + rest)[1..] == s[1..] + [DASH] + rest;
      assert [s[0]] + s[1..] == s;
    }
  }

  lemma {:induction false} SplitInvertsJoin(l: Subtags)
    requires l != [] && All(l, Plain)
    ensures Split(Join(l)) == l
  {
    if |l| == 1 {
      SplitCut(l[0], []);
    } else {
      SplitInvertsJoin(l[1..]);
      SplitCut(l[0], Join(l[1..]));
      assert [l[0]] + l[1..] == l;
    }
  }

  lemma {:induction false} JoinInvertsSplit(s: seq<u8>)
    ensures Join(Split(s)) == s
  {
    if s != [] {
      JoinInvertsSplit(s[1..]);
      var rest := Split(s[1..]);
      if s[0] == DASH {
        assert ([[]] + rest)[1..] == rest;
      } else {
        assert ([[s[0]] + rest[0]] + rest[1..])[1..] == rest[1..];
      }
    }
  }

  lemma PlainClasses(s: seq<u8>)
    ensures IsSingleton(s) || IsPrivateMarker(s) || IsPrivatePart(s) || IsBody(s) ==> Plain(s)
    ensures IsVariant(s) || IsScript(s) || IsRegion(s) || IsExtlangPart(s) || IsAlpha(s, 2, 8) ==> Plain(s)
  {
  }

  lemma PlainTail(l: Subtags)
    requires l == [] || (Plain(l[0]) && All(l[1..], Plain))
    ensures All(l, Plain)
  {
    forall i | 0 <= i < |l| ensures Plain(l[i]) {
      if i > 0 {
        assert Plain(l[1..][i - 1]);
      }
    }
  }

  lemma PlainPrivate(l: Subtags)
    requires GreedyPrivate(l)
    ensures All(l, Plain)
  {
    forall i | 0 <= i < |l| ensures Plain(l[i]) {
      PlainClasses(l[i]);
    }
  }

  lemma {:induction false} PlainExtensions(l: Subtags)
    requires GreedyExtensions(l) || GreedyBody(l)
    ensures All(l, Plain)
    decreases |l|
  {
    hide All, Plain, IsSingleton, IsBody, IsPrivateMarker, GreedyPrivate;
    if l != [] {
      PlainClasses(l[0]);
      if IsPrivateMarker(l[0]) && GreedyPrivate(l[1..]) {
        PlainPrivate(l[1..]);
      } else if IsSingleton(l[0]) && GreedyExtensions(l) {
        PlainClasses(l[1]);
        PlainExtensions(l[2..]);
        assert l[1..][1..] == l[2..];
        PlainTail(l[1..]);
      } else {
        PlainExtensions(l[1..]);
      }
    }
    PlainTail(l);
  }

  lemma {:induction false} PlainVariants(l: Subtags)
    requires GreedyVariants(l)
    ensures All(l, Plain)
  {
    hide All, Plain, IsVariant, GreedyExtensions;
    if l != [] && IsVariant(l[0]) {
      PlainClasses(l[0]);
      PlainVariants(l[1..]);
      PlainTail(l);
    } else {
      PlainExtensions(l);
    }
  }

  lemma PlainRegion(l: Subtags)
    requires GreedyRegion(l)
    ensures All(l, Plain)
  {
    hide All, Plain, IsRegion, GreedyVariants;
    if l != [] && IsRegion(l[0]) {
      PlainClasses(l[0]);
      PlainVariants(l[1..]);
      PlainTail(l);
    } else {
      PlainVariants(l);
    }
  }

  lemma PlainScript(l: Subtags)
    requires GreedyScript(l)
    ensures All(l, Plain)
  {
    hide All, Plain, IsScript, GreedyRegion;
    if l != [] && IsScript(l[0]) {
      PlainClasses(l[0]);
      PlainRegion(l[1..]);
      PlainTail(l);
    } else {
      PlainRegion(l);
    }
  }

  lemma {:induction false} PlainExtlang(l: Subtags, left: nat)
    requires GreedyExtlang(l, left)
    ensures All(l, Plain)
    decreases left
  {
    hide All, Plain, IsExtlangPart, GreedyScript;
    if left > 0 && l != [] && IsExtlangPart(l[0]) {
      PlainClasses(l[0]);
      PlainExtlang(l[1..], left - 1);
      PlainTail(l);
    } else {
      PlainScript(l);
    }
  }

  lemma PlainTag(l: Subtags)
    requires l != [] && GreedyTag(l)
    ensures All(l, Plain)
  {
    hide All, Plain, IsPrivateMarker, IsAlpha, GreedyPrivate, GreedyExtlang, GreedyScript;
    PlainClasses(l[0]);
    if IsPrivateMarker(l[0]) {
      PlainPrivate(l[1..]);
    } else if |l[0]| <= 3 {
      PlainExtlang(l[1..], 3);
    } else {
      PlainScript(l[1..]);
    }
    PlainTail(l);
  }

  /** A byte string splits into an accepted list exactly when some accepted list joins to it. */
  lemma SplitFindsTheList(tag: seq<u8>)
    ensures GreedyTag(Split(tag)) <==> exists l: Subtags :: l != [] && Join(l) == tag && (LangTag(l) || PrivateUse(l))
  {
    hide GreedyTag, LangTag, PrivateUse, All;
    TagAgrees(Split(tag));
    JoinInvertsSplit(tag);
    if l: Subtags :| l != [] && Join(l) == tag && (LangTag(l) || PrivateUse(l)) {
      TagAgrees(l);
      PlainTag(l);
      SplitInvertsJoin(l);
    }
  }

  // ------------------------------------------------------------ case

  function Fold(s: seq<u8>): (r: seq<u8>)
    ensures |r| == |s| && forall i | 0 <= i < |s| :: r[i] == ToLower(s[i])
  {
    seq(|s|, i requires 0 <= i < |s| => ToLower(s[i]))
  }

  function FoldAll(l: Subtags): (r: Subtags)
    ensures |r| == |l| && forall i | 0 <= i < |l| :: r[i] == Fold(l[i])
  {
    seq(|l|, i requires 0 <= i < |l| => Fold(l[i]))
  }

  lemma FoldDecides(a: seq<u8>, b: seq<u8>)
    ensures SameCaseless(a, b) <==> Fold(a) == Fold(b)
  {
    if Fold(a) == Fold(b) {
      forall i | 0 <= i < |a| ensures ToLower(a[i]) == ToLower(b[i]) {
        assert Fold(a)[i] == Fold(b)[i];
      }
    }
  }

  lemma FoldLetters(s: seq<u8>, lo: nat, hi: nat)
    ensures IsAlpha(Fold(s), lo, hi) <==> IsAlpha(s, lo, hi)
    ensures IsAlphanumeric(Fold(s), lo, hi) <==> IsAlphanumeric(s, lo, hi)
    ensures IsDigits(Fold(s), lo) <==> IsDigits(s, lo)
  {
    forall i | 0 <= i < |s|
      ensures IsLetter(Fold(s)[i]) <==> IsLetter(s[i])
      ensures IsDigit(Fold(s)[i]) <==> IsDigit(s[i])
    {
    }
    if IsAlpha(Fold(s), lo, hi) {
      forall i | 0 <= i < |s| ensures IsLetter(s[i]) {
        assert IsLetter(Fold(s)[i]);
      }
    }
    if IsAlphanumeric(Fold(s), lo, hi) {
      forall i | 0 <= i < |s| ensures IsLetter(s[i]) || IsDigit(s[i]) {
        assert IsLetter(Fold(s)[i]) || IsDigit(Fold(s)[i]);
      }
    }
    if IsDigits(Fold(s), lo) {
      forall i | 0 <= i < |s| ensures IsDigit(s[i]) {
        assert IsDigit(Fold(s)[i]);
      }
    }
  }

  lemma FoldClasses(s: seq<u8>)
    ensures IsPrivateMarker(Fold(s)) <==> IsPrivateMarker(s)
    ensures IsSingleton(Fold(s)) <==> IsSingleton(s)
    ensures IsBody(Fold(s)) <==> IsBody(s)
    ensures IsPrivatePart(Fold(s)) <==> IsPrivatePart(s)
    ensures IsVariant(Fold(s)) <==> IsVariant(s)
    ensures IsScript(Fold(s)) <==> IsScript(s)
    ensures IsRegion(Fold(s)) <==> IsRegion(s)
    ensures IsExtlangPart(Fold(s)) <==> IsExtlangPart(s)
    ensures IsAlpha(Fold(s), 2, 8) <==> IsAlpha(s, 2, 8)
  {
    hide IsAlpha, IsAlphanumeric, IsDigits;
    FoldLetters(s, 1, 1);
    FoldLetters(s, 2, 2);
    FoldLetters(s, 3, 3);
    FoldLetters(s, 4, 4);
    FoldLetters(s, 5, 8);
    FoldLetters(s, 2, 8);
    FoldLetters(s, 1, 8);
  }

  lemma FoldTail(l: Subtags, k: nat)
    requires k <= |l|
    ensures FoldAll(l[k..]) == FoldAll(l)[k..]
  {
  }

  lemma FoldPrivate(l: Subtags)
    ensures GreedyPrivate(FoldAll(l)) <==> GreedyPrivate(l)
  {
    hide IsPrivatePart;
    forall i | 0 <= i < |l| ensures IsPrivatePart(FoldAll(l)[i]) <==> IsPrivatePart(l[i]) {
      FoldClasses(l[i]);
    }
    if GreedyPrivate(FoldAll(l)) {
      forall i | 0 <= i < |l| ensures IsPrivatePart(l[i]) {
        assert IsPrivatePart(FoldAll(l)[i]);
      }
    }
  }

  lemma {:induction false} FoldExtensions(l: Subtags)
    ensures GreedyExtensions(FoldAll(l)) <==> GreedyExtensions(l)
    ensures GreedyBody(FoldAll(l)) <==> GreedyBody(l)
  {
    hide IsSingleton, IsBody, IsPrivateMarker, GreedyPrivate;
    if l != [] {
      FoldClasses(l[0]);
      FoldTail(l, 1);
      FoldPrivate(l[1..]);
      FoldExtensions(l[1..]);
      if |l| >= 2 {
        FoldClasses(l[1]);
        FoldTail(l, 2);
        FoldExtensions(l[2..]);
      }
    }
  }

  lemma {:induction false} FoldVariants(l: Subtags)
    ensures GreedyVariants(FoldAll(l)) <==> GreedyVariants(l)
  {
    hide IsVariant, GreedyExtensions;
    FoldExtensions(l);
    if l != [] {
      FoldClasses(l[0]);
      FoldTail(l, 1);
      FoldVariants(l[1..]);
    }
  }

  lemma FoldScript(l: Subtags)
    ensures GreedyScript(FoldAll(l)) <==> GreedyScript(l)
  {
    hide IsScript, IsRegion, GreedyVariants;
    FoldVariants(l);
    if l != [] {
      FoldClasses(l[0]);
      FoldTail(l, 1);
      FoldVariants(l[1..]);
      if |l| >= 2 {
        FoldClasses(l[1]);
        FoldTail(l[1..], 1);
        FoldVariants(l[1..][1..]);
      }
    }
  }

  lemma {:induction false} FoldExtlang(l: Subtags, left: nat)
    ensures GreedyExtlang(FoldAll(l), left) <==> GreedyExtlang(l, left)
    decreases left
  {
    hide IsExtlangPart, GreedyScript;
    FoldScript(l);
    if l != [] && left > 0 {
      FoldClasses(l[0]);
      FoldTail(l, 1);
      FoldExtlang(l[1..], left - 1);
    }
  }

  lemma FoldTag(l: Subtags)
    requires l != []
    ensures GreedyTag(FoldAll(l)) <==> GreedyTag(l)
  {
    hide IsPrivateMarker, IsAlpha, GreedyPrivate, GreedyExtlang, GreedyScript;
    FoldClasses(l[0]);
    FoldTail(l, 1);
    FoldPrivate(l[1..]);
    FoldExtlang(l[1..], 3);
    FoldScript(l[1..]);
  }

  lemma {:induction false} FoldSplit(s: seq<u8>)
    ensures Split(Fold(s)) == FoldAll(Split(s))
  {
    if s == [] {
      assert FoldAll([[]]) == [[]];
    } else {
      FoldSplit(s[1..]);
      assert Fold(s)[1..] == Fold(s[1..]);
      var rest := Split(s[1..]);
      if s[0] == DASH {
        assert FoldAll([[]] + rest) == [[]] + FoldAll(rest);
      } else {
        assert Fold([s[0]] + rest[0]) == [ToLower(s[0])] + Fold(rest[0]);
        assert FoldAll([[s[0]] + rest[0]] + rest[1..]) == [Fold([s[0]] + rest[0])] + FoldAll(rest)[1..];
      }
    }
  }

  lemma FoldLiterals(literals: seq<string>, a: seq<u8>, b: seq<u8>)
    requires SameCaseless(a, b)
    ensures IsOneOf(literals, a) ==> IsOneOf(literals, b)
  {
    if i :| 0 <= i < |literals| && SameCaseless(Bytes(literals[i]), a) {
      assert SameCaseless(Bytes(literals[i]), b);
    }
  }

  /** Section 2.1.1: tags that differ only in ASCII case are accepted or refused together. */
  lemma CaseNeverMatters(a: seq<u8>, b: seq<u8>)
    requires SameCaseless(a, b)
    ensures WellFormed(a) <==> WellFormed(b)
  {
    hide GreedyTag, IsOneOf;
    FoldDecides(a, b);
    FoldSplit(a);
    FoldSplit(b);
    FoldTag(Split(a));
    FoldTag(Split(b));
    FoldLiterals(IRREGULAR, a, b);
    FoldLiterals(IRREGULAR, b, a);
  }

  // ------------------------------------------------------------ the grandfathered tags

  predicate Letters(text: string) {
    forall i | 0 <= i < |text| :: 'a' <= text[i] <= 'z'
  }

  lemma LettersAreAlpha(text: string, lo: nat, hi: nat)
    requires Letters(text) && lo <= |text| <= hi
    ensures IsAlpha(Bytes(text), lo, hi) && IsAlphanumeric(Bytes(text), lo, hi) && Plain(Bytes(text))
  {
  }

  lemma BytesCut(a: string, b: string)
    ensures Bytes(a + "-" + b) == Bytes(a) + [DASH] + Bytes(b)
  {
  }

  /** A regular grandfathered tag of two parts is a langtag: language and extlang, or language and variant. */
  lemma TwoParts(a: string, b: string)
    requires Letters(a) && Letters(b) && 2 <= |a| <= 3 && (|b| == 3 || 5 <= |b| <= 8)
    ensures GreedyTag(Split(Bytes(a + "-" + b)))
  {
    hide IsAlpha, IsAlphanumeric, Plain, Letters;
    BytesCut(a, b);
    LettersAreAlpha(a, 2, 8);
    LettersAreAlpha(b, |b|, |b|);
    SplitCut(Bytes(a), Bytes(b));
    SplitCut(Bytes(b), []);
    var l: Subtags := [Bytes(a), Bytes(b)];
    assert Split(Bytes(a + "-" + b)) == l;
    assert l[1..] == [Bytes(b)] && |l[1..][1..]| == 0;
    ClassShapes(Bytes(b));
    ClassShapes(Bytes(a));
    if |b| == 3 {
      assert IsExtlangPart(l[1]);
      assert GreedyScript([]);
      assert GreedyExtlang(l[1..], 3);
    } else {
      LettersAreAlpha(b, 5, 8);
      assert IsVariant(l[1]) && !IsExtlangPart(l[1]) && !IsScript(l[1]) && !IsRegion(l[1]);
      assert GreedyVariants([]);
      assert GreedyVariants(l[1..]);
      assert GreedyExtlang(l[1..], 3);
    }
  }

  lemma ThreeParts(a: string, b: string, c: string)
    requires Letters(a) && Letters(b) && Letters(c) && 2 <= |a| <= 3 && |b| == 3 && |c| == 3
    ensures GreedyTag(Split(Bytes(a + "-" + (b + "-" + c))))
  {
    hide IsAlpha, IsAlphanumeric, Plain, Letters;
    BytesCut(a, b + "-" + c);
    BytesCut(b, c);
    LettersAreAlpha(a, 2, 8);
    LettersAreAlpha(b, 3, 3);
    LettersAreAlpha(c, 3, 3);
    SplitCut(Bytes(a), Bytes(b + "-" + c));
    SplitCut(Bytes(b), Bytes(c));
    SplitCut(Bytes(c), []);
    var l: Subtags := [Bytes(a), Bytes(b), Bytes(c)];
    assert Split(Bytes(a + "-" + (b + "-" + c))) == l;
    assert l[1..] == [Bytes(b), Bytes(c)] && l[1..][1..] == [Bytes(c)] && |l[1..][1..][1..]| == 0;
    ClassShapes(Bytes(a));
    assert GreedyScript([]);
    assert GreedyExtlang(l[1..][1..], 2);
    assert GreedyExtlang(l[1..], 3);
  }

  /** The regular grandfathered tags need no list of their own. */
  lemma RegularLiterals(i: nat)
    requires i < |REGULAR|
    ensures GreedyTag(Split(Bytes(REGULAR[i])))
  {
    hide GreedyTag, Split, Bytes;
    if i < 4 {
      TwoParts("art", "lojban");
      TwoParts("cel", "gaulish");
      TwoParts("no", "bok");
      TwoParts("no", "nyn");
      assert REGULAR[0] == "art" + "-" + "lojban" && REGULAR[1] == "cel" + "-" + "gaulish";
      assert REGULAR[2] == "no" + "-" + "bok" && REGULAR[3] == "no" + "-" + "nyn";
    } else {
      ChineseLiterals(i);
    }
  }

  lemma ChineseLiterals(i: nat)
    requires 4 <= i < |REGULAR|
    ensures GreedyTag(Split(Bytes(REGULAR[i])))
  {
    hide GreedyTag, Split, Bytes;
    TwoParts("zh", "guoyu");
    TwoParts("zh", "hakka");
    TwoParts("zh", "min");
    ThreeParts("zh", "min", "nan");
    TwoParts("zh", "xiang");
    assert REGULAR[4] == "zh" + "-" + "guoyu" && REGULAR[5] == "zh" + "-" + "hakka";
    assert REGULAR[6] == "zh" + "-" + "min" && REGULAR[7] == "zh" + "-" + ("min" + "-" + "nan");
    assert REGULAR[8] == "zh" + "-" + "xiang";
  }

  lemma RegularMatches(tag: seq<u8>)
    requires IsOneOf(REGULAR, tag)
    ensures GreedyTag(Split(tag))
  {
    hide GreedyTag, Split;
    var i :| 0 <= i < |REGULAR| && SameCaseless(Bytes(REGULAR[i]), tag);
    RegularLiterals(i);
    FoldDecides(Bytes(REGULAR[i]), tag);
    FoldSplit(Bytes(REGULAR[i]));
    FoldSplit(tag);
    FoldTag(Split(Bytes(REGULAR[i])));
    FoldTag(Split(tag));
  }

  /** The greedy pass accepts exactly the Language-Tag production of section 2.1 of RFC 5646. */
  lemma GreedyIsTheGrammar(tag: seq<u8>)
    ensures WellFormed(tag) <==> LanguageTag(tag)
  {
    hide GreedyTag, IsOneOf, Split, Join, LangTag, PrivateUse;
    SplitFindsTheList(tag);
    if IsOneOf(REGULAR, tag) {
      RegularMatches(tag);
    }
  }
}
