/** The shapes of short language tags, in bytes and lengths: which tags of up to three subtags are well-formed. */
module TagShapes {
  import opened Core
  import opened LanguageTags

  predicate Letters(s: seq<u8>) {
    forall i | 0 <= i < |s| :: 0x41 <= s[i] <= 0x5a || 0x61 <= s[i] <= 0x7a
  }

  predicate Digits(s: seq<u8>) {
    forall i | 0 <= i < |s| :: 0x30 <= s[i] <= 0x39
  }

  predicate LettersOrDigits(s: seq<u8>) {
    forall i | 0 <= i < |s| :: 0x41 <= s[i] <= 0x5a || 0x61 <= s[i] <= 0x7a || 0x30 <= s[i] <= 0x39
  }

  /** One subtag: two to eight letters. */
  lemma OneSubtag(a: seq<u8>)
    requires 0x2d !in a
    ensures LanguageTag(a) <==> IsOneOf(IRREGULAR, a) || (2 <= |a| <= 8 && Letters(a))
  {
    hide IsOneOf, LanguageTag;
    GreedyIsTheGrammar(a);
    SplitCut(a, []);
    assert [a][1..] == [];
  }

  /** What may follow the language: an extended language, a script, a region, a variant. */
  predicate MayFollow(a: seq<u8>, b: seq<u8>) {
    || (|b| == 3 && Letters(b) && |a| <= 3)
    || (|b| == 4 && Letters(b))
    || (|b| == 2 && Letters(b)) || (|b| == 3 && Digits(b))
    || (5 <= |b| <= 8 && LettersOrDigits(b)) || (|b| == 4 && LettersOrDigits(b) && Digits(b[..1]))
  }

  predicate IsX(s: seq<u8>) {
    s == [0x78] || s == [0x58]
  }

  /** Nothing more need follow. */
  lemma MayEnd(left: nat)
    ensures GreedyExtensions([]) && GreedyBody([]) && GreedyVariants([]) && GreedyRegion([]) && GreedyScript([])
    ensures GreedyExtlang([], left)
  {
  }

  lemma LastSubtag(b: seq<u8>)
    ensures GreedyExtensions([b]) <==> false
    ensures GreedyVariants([b]) <==> IsVariant(b)
    ensures GreedyRegion([b]) <==> IsRegion(b) || IsVariant(b)
    ensures GreedyScript([b]) <==> IsScript(b) || IsRegion(b) || IsVariant(b)
    ensures GreedyExtlang([b], 3) <==> IsExtlangPart(b) || IsScript(b) || IsRegion(b) || IsVariant(b)
  {
    hide IsVariant, IsScript, IsExtlangPart, IsRegion, IsPrivatePart, IsBody;
    MayEnd(2);
    ClassShapes(b);
    assert [b][1..] == [];
  }

  lemma Classes(b: seq<u8>)
    ensures IsVariant(b) <==> (5 <= |b| <= 8 && LettersOrDigits(b))
                              || (|b| == 4 && LettersOrDigits(b) && Digits(b[..1]))
    ensures IsScript(b) <==> |b| == 4 && Letters(b)
    ensures IsRegion(b) <==> (|b| == 2 && Letters(b)) || (|b| == 3 && Digits(b))
    ensures IsExtlangPart(b) <==> |b| == 3 && Letters(b)
    ensures IsPrivatePart(b) <==> 1 <= |b| <= 8 && LettersOrDigits(b)
    ensures IsBody(b) <==> 2 <= |b| <= 8 && LettersOrDigits(b)
    ensures IsPrivateMarker(b) <==> IsX(b)
    ensures IsSingleton(b) <==> |b| == 1 && LettersOrDigits(b) && !IsX(b)
    ensures IsAlpha(b, 2, 8) <==> 2 <= |b| <= 8 && Letters(b)
  {
    if |b| > 0 {
      assert b[..1][0] == b[0];
    }
    if |b| == 1 {
      assert b == [b[0]];
    }
  }

  lemma TwoSubtags(a: seq<u8>, b: seq<u8>)
    requires 0x2d !in a && 0x2d !in b
    ensures var tag := a + [0x2d] + b;
            LanguageTag(tag) <==>
            || IsOneOf(IRREGULAR, tag)
            || (IsX(a) && 1 <= |b| <= 8 && LettersOrDigits(b))
            || (2 <= |a| <= 8 && Letters(a) && MayFollow(a, b))
  {
    hide IsOneOf, LanguageTag, IsVariant, IsScript, IsExtlangPart, IsRegion, IsPrivatePart, IsAlpha, IsPrivateMarker;
    hide GreedyExtlang, GreedyScript, Letters, LettersOrDigits, Digits;
    var tag := a + [0x2d] + b;
    GreedyIsTheGrammar(tag);
    SplitCut(a, b);
    SplitCut(b, []);
    assert [a] + [b] == [a, b] && [a, b][1..] == [b];
    Classes(a);
    Classes(b);
    LastSubtag(b);
  }

  lemma PrivateOne(b: seq<u8>)
    ensures GreedyPrivate([b]) <==> IsPrivatePart(b)
  {
    assert [b][0] == b;
  }

  lemma PrivateTwo(a: seq<u8>, b: seq<u8>)
    ensures GreedyPrivate([a, b]) <==> IsPrivatePart(a) && IsPrivatePart(b)
  {
    assert [a, b][0] == a && [a, b][1] == b;
  }

  /** A singleton or "x" and then the last subtag. */
  lemma LastTwo(s: seq<u8>, b: seq<u8>)
    requires |s| == 1
    ensures var tail := GreedyExtensions([s, b]);
            && (GreedyScript([s, b]) <==> tail) && (GreedyExtlang([s, b], 3) <==> tail)
            && (tail <==> (IsSingleton(s) && IsBody(b)) || (IsPrivateMarker(s) && IsPrivatePart(b)))
  {
    hide IsVariant, IsScript, IsExtlangPart, IsRegion, IsPrivatePart, IsBody, IsSingleton, IsPrivateMarker;
    MayEnd(3);
    PrivateOne(b);
    ClassShapes(s);
    assert [s, b][2..] == [] && [s, b][1..] == [b] && [b][1..] == [];
  }

  lemma XIsALetter(s: u8)
    ensures IsX([s]) ==> LettersOrDigits([s])
  {
  }

  /** One byte between: private use behind "x", an extension behind any other letter or digit. */
  lemma ByteBetween(a: seq<u8>, s: u8, b: seq<u8>)
    requires 0x2d !in a && s != 0x2d && 0x2d !in b
    ensures var tag := a + [0x2d] + ([s] + [0x2d] + b);
            LanguageTag(tag) <==>
            || IsOneOf(IRREGULAR, tag)
            || ((IsX(a) || (2 <= |a| <= 8 && Letters(a))) && LettersOrDigits([s]) && LettersOrDigits(b)
                && (if IsX(a) || IsX([s]) then 1 else 2) <= |b| <= 8)
  {
    hide IsOneOf, LanguageTag, IsVariant, IsScript, IsExtlangPart, IsRegion, IsPrivatePart, IsAlpha, IsPrivateMarker;
    hide GreedyExtlang, GreedyScript, Letters, LettersOrDigits, IsBody, IsSingleton, GreedyExtensions, GreedyPrivate;
    hide Split;
    var tag := a + [0x2d] + ([s] + [0x2d] + b);
    GreedyIsTheGrammar(tag);
    SplitCut(a, [s] + [0x2d] + b);
    SplitCut([s], b);
    SplitCut(b, []);
    assert [a] + ([[s]] + [b]) == [a, [s], b] && [a, [s], b][1..] == [[s], b];
    XIsALetter(s);
    PrivateTwo([s], b);
    Classes(a);
    Classes([s]);
    Classes(b);
    LastTwo([s], b);
  }

  // ------------------------------------------------------- tags older than the grammar

  lemma SameParts(a: seq<u8>, b: seq<u8>, c: seq<u8>, d: seq<u8>)
    requires |a| == |c|
    ensures SameCaseless(a + b, c + d) <==> SameCaseless(a, c) && SameCaseless(b, d)
  {
    var x, y := a + b, c + d;
    assert forall i | 0 <= i < |a| :: x[i] == a[i] && y[i] == c[i];
    assert |b| == |d| ==> forall i | 0 <= i < |b| :: x[|a| + i] == b[i] && y[|a| + i] == d[i];
  }

  /** Tags alike but for case have a hyphen at the second place both or neither. */
  lemma SecondByte(text: string, tag: seq<u8>)
    requires |text| >= 2 && |tag| >= 2 && text[1] != '\0' && (text[1] == '-') != (tag[1] == 0x2d)
    ensures !SameCaseless(Bytes(text), tag)
  {
    assert Bytes(text)[1] == Ascii(text[1]);
  }

  /** The words that may follow a lone "i". */
  const I_WORDS: seq<string> := [
    "ami", "bnn", "default", "enochian", "hak", "klingon", "lux", "mingo", "navajo", "pwn", "tao", "tay", "tsu"]

  lemma BehindPrefix(word: string, b: seq<u8>)
    ensures SameCaseless(Bytes("i-" + word), [0x69, 0x2d] + b) <==> SameCaseless(Bytes(word), b)
  {
    assert Bytes("i-" + word) == [0x69, 0x2d] + Bytes(word);
    SameParts([0x69, 0x2d], Bytes(word), [0x69, 0x2d], b);
  }

  /** "i" is no language: exactly these tags start with it. */
  lemma BehindI(b: seq<u8>)
    requires 0x2d !in b
    ensures LanguageTag([0x69, 0x2d] + b) <==> IsOneOf(I_WORDS, b)
  {
    hide LanguageTag, SameCaseless, Bytes, MayFollow, Letters, LettersOrDigits;
    var tag := [0x69, 0x2d] + b;
    TwoSubtags([0x69], b);
    assert [0x69] + [0x2d] + b == tag;
    forall k: nat | k < |I_WORDS|
      ensures SameCaseless(Bytes(IRREGULAR[k + 1]), tag) <==> SameCaseless(Bytes(I_WORDS[k]), b)
    {
      BehindPrefix(I_WORDS[k], b);
      assert IRREGULAR[k + 1] == "i-" + I_WORDS[k];
    }
    forall k: nat | k == 0 || 14 <= k < |IRREGULAR| ensures !SameCaseless(Bytes(IRREGULAR[k]), tag) {
      SecondByte(IRREGULAR[k], tag);
    }
    if k: nat :| k < |IRREGULAR| && SameCaseless(Bytes(IRREGULAR[k]), tag) {
      assert SameCaseless(Bytes(I_WORDS[k - 1]), b);
    }
  }

  /** What is registered behind a region. */
  const WITH_REGION: seq<string> := ["en-GB-oed", "sgn-BE-FR", "sgn-BE-NL", "sgn-CH-DE"]

  /** Behind a region of two letters only these have two or three letters more. */
  lemma BehindRegion(a: seq<u8>, b: seq<u8>, c: seq<u8>)
    requires 2 <= |a| <= 8 && Letters(a) && |b| == 2 && Letters(b) && 2 <= |c| <= 3 && Letters(c)
    ensures var tag := a + [0x2d] + (b + [0x2d] + c);
            LanguageTag(tag) <==> IsOneOf(WITH_REGION, tag)
  {
    hide LanguageTag, SameCaseless, Bytes;
    var tag := a + [0x2d] + (b + [0x2d] + c);
    GreedyIsTheGrammar(tag);
    NotRegular(a, b, c);
    forall k: nat | k < 4 ensures WITH_REGION[k] == IRREGULAR[if k == 0 then 0 else 13 + k] {
    }
    forall k: nat | 0 < k < 14 ensures !SameCaseless(Bytes(IRREGULAR[k]), tag) {
      SecondByte(IRREGULAR[k], tag);
    }
    if k: nat :| k < |IRREGULAR| && SameCaseless(Bytes(IRREGULAR[k]), tag) {
      assert SameCaseless(Bytes(WITH_REGION[if k == 0 then 0 else k - 13]), tag);
    }
  }

  lemma SplitThree(a: seq<u8>, b: seq<u8>, c: seq<u8>)
    requires Letters(a) && Letters(b) && Letters(c)
    ensures Split(a + [0x2d] + (b + [0x2d] + c)) == [a, b, c]
  {
    hide Split, Letters;
    Hyphenless(a);
    Hyphenless(b);
    Hyphenless(c);
    SplitCut(a, b + [0x2d] + c);
    SplitCut(b, c);
    SplitCut(c, []);
    assert [a] + ([b] + [c]) == [a, b, c];
  }

  /** A few letters are no variant, and two are a region and neither extended language nor script. */
  lemma FewLetters(c: seq<u8>)
    requires 2 <= |c| <= 3 && Letters(c)
    ensures !IsVariant(c) && !IsScript(c) && !IsPrivateMarker(c) && !IsSingleton(c)
    ensures |c| == 2 ==> IsRegion(c) && !IsExtlangPart(c)
  {
    Classes(c);
  }

  lemma NotRegular(a: seq<u8>, b: seq<u8>, c: seq<u8>)
    requires 2 <= |a| <= 8 && Letters(a) && |b| == 2 && Letters(b) && 2 <= |c| <= 3 && Letters(c)
    ensures !GreedyTag(Split(a + [0x2d] + (b + [0x2d] + c)))
  {
    hide Split, Letters, IsVariant, IsScript, IsRegion, IsExtlangPart, IsPrivatePart, IsPrivateMarker, IsSingleton;
    hide GreedyPrivate, IsAlpha;
    SplitThree(a, b, c);
    FewLetters(b);
    FewLetters(c);
    assert [a, b, c][1..] == [b, c] && [b, c][1..] == [c];
    assert !IsPrivateMarker(a) by { ClassShapes(a); }
    assert !GreedyVariants([c]);
    assert !GreedyScript([b, c]);
  }

  lemma Hyphenless(s: seq<u8>)
    requires Letters(s)
    ensures 0x2d !in s
  {
  }
}
