/** The bin-code resolver of `src/utils/qrParser.ts`: free text read from a
    bin's QR code is normalised and then resolved to a waste category through
    a fixed cascade (exact key, two-way partial match, keyword fallback). */
module QrParser {
  import opened Wrappers
  import opened Sequences
  import opened Strings

  /** The eight categories the parser can return. */
  datatype Category =
    | PlasticPet | PlasticFlexible | PlasticRigid | PlasticCutlery
    | Metal | Paper | Glass | Organic
  {
    /** The string the parser returns for the category. */
    function Name(): string {
      match this
      case PlasticPet => "Plastic_PET"
      case PlasticFlexible => "Plastic_Flexible"
      case PlasticRigid => "Plastic_Rigid"
      case PlasticCutlery => "Plastic_Cutlery"
      case Metal => "Metal"
      case Paper => "Paper"
      case Glass => "Glass"
      case Organic => "Organic"
    }
  }

  /** Distinct categories have distinct names, so comparing names is comparing categories. */
  lemma NameInjective(a: Category, b: Category)
    ensures a.Name() == b.Name() <==> a == b
  {
  }

  /** `binMapping`, in its insertion order (the order `Object.entries` visits it). */
  const BinMapping: seq<(string, Category)> := [
    ("PETBIN", PlasticPet), ("FLEXIBLEBIN", PlasticFlexible), ("RIGIDBIN", PlasticRigid),
    ("CUTLERYBIN", PlasticCutlery), ("METALBIN", Metal), ("PAPERBIN", Paper),
    ("GLASSBIN", Glass), ("ORGANICBIN", Organic)
  ]

  /** `fuzzyMap`, in its insertion order. */
  const FuzzyMap: seq<(string, Category)> := [
    ("PET", PlasticPet), ("FLEXIBLE", PlasticFlexible), ("RIGID", PlasticRigid),
    ("CUTLERY", PlasticCutlery), ("METAL", Metal), ("PAPER", Paper),
    ("GLASS", Glass), ("ORGANIC", Organic)
  ]

  /** `replace(/[\s\n\r\t]+/g, '')`: every white-space character goes. */
  function RemoveSpaces(s: string): string
  {
    if |s| == 0 then []
    else if IsSpace(s[0]) then RemoveSpaces(s[1..])
    else [s[0]] + RemoveSpaces(s[1..])
  }

  /** `replace(/[^\w]/g, '')`: only word characters stay, in order. */
  function KeepWordChars(s: string): string
  {
    if |s| == 0 then []
    else if IsWordChar(s[0]) then [s[0]] + KeepWordChars(s[1..])
    else KeepWordChars(s[1..])
  }

  /** `normalizeText`: trim, upper-case, remove every run of white space,
      then remove every character that is not a word character. */
  function NormalizeText(text: string): string {
    KeepWordChars(RemoveSpaces(ToUpper(Trim(text))))
  }

  /** The category of the first table entry whose key satisfies `p`. */
  function FirstCategory(table: seq<(string, Category)>, p: string -> bool): (r: Option<Category>)
    ensures r.None? <==> forall j :: 0 <= j < |table| ==> !p(table[j].0)
  {
    match FirstIndex(table, (e: (string, Category)) => p(e.0))
    case Some(i) => Some(table[i].1)
    case None => None
  }

  /** `binMapping[normalized]`. */
  function DirectMatch(normalized: string): Option<Category> {
    FirstCategory(BinMapping, key => key == normalized)
  }

  /** The test of the partial step: `normalized.includes(binName) || binName.includes(normalized)`. */
  predicate PartialHit(normalized: string, binName: string) {
    Contains(normalized, binName) || Contains(binName, normalized)
  }

  function PartialMatch(normalized: string): Option<Category> {
    FirstCategory(BinMapping, binName => PartialHit(normalized, binName))
  }

  function FuzzyMatch(normalized: string): Option<Category> {
    FirstCategory(FuzzyMap, keyword => Contains(normalized, keyword))
  }

  /** `parseBinCategory`: the first step of the cascade that finds something
      decides; `None` is `null`. */
  function ParseBinCategory(qrText: string): Option<Category> {
    var normalized := NormalizeText(qrText);
    match DirectMatch(normalized)
    case Some(c) => Some(c)
    case None =>
      match PartialMatch(normalized)
      case Some(c) => Some(c)
      case None => FuzzyMatch(normalized)
  }

  /** `getCategoryDisplayName`: every `_` becomes `" - "`. */
  function GetCategoryDisplayName(category: string): (r: string)
    ensures '_' !in r
    ensures '_' !in category ==> r == category
  {
    if |category| == 0 then []
    else (if category[0] == '_' then " - " else [category[0]]) + GetCategoryDisplayName(category[1..])
  }

  // ---------------------------------------------------------------------
  // Normalisation

  /** The strings `normalizeText` can produce: upper-case letters, digits and `_`. */
  predicate IsNormalized(s: string) {
    forall i :: 0 <= i < |s| ==> IsAsciiUpper(s[i]) || IsDigit(s[i]) || s[i] == '_'
  }

  lemma {:induction false} KeepWordCharsConcat(x: string, y: string)
    ensures KeepWordChars(x + y) == KeepWordChars(x) + KeepWordChars(y)
  {
    if |x| == 0 {
      assert x + y == y;
    } else {
      assert (x + y)[1..] == x[1..] + y;
      KeepWordCharsConcat(x[1..], y);
    }
  }

  lemma {:induction false} KeepWordCharsMembership(s: string, c: char)
    ensures c in KeepWordChars(s) <==> c in s && IsWordChar(c)
  {
    if |s| > 0 {
      KeepWordCharsMembership(s[1..], c);
      assert s == [s[0]] + s[1..];
    }
  }

  lemma {:induction false} KeepWordCharsOfNormalized(s: string)
    requires IsNormalized(s)
    ensures KeepWordChars(s) == s
  {
    if |s| > 0 {
      KeepWordCharsOfNormalized(s[1..]);
    }
  }

  /** White space holds no word characters. */
  lemma {:induction false} KeepWordCharsOfSpaces(s: string)
    requires forall i :: 0 <= i < |s| ==> IsSpace(s[i])
    ensures KeepWordChars(s) == []
  {
    if |s| > 0 {
      KeepWordCharsOfSpaces(s[1..]);
    }
  }

  /** Removing white space first changes nothing once the non-word characters go. */
  lemma {:induction false} KeepWordCharsAfterRemoveSpaces(s: string)
    ensures KeepWordChars(RemoveSpaces(s)) == KeepWordChars(s)
  {
    if |s| > 0 {
      KeepWordCharsAfterRemoveSpaces(s[1..]);
    }
  }

  /** Reference definition: the word characters of the upper-cased text, in
      order. Trimming and removing white space change nothing once the
      non-word characters are gone. */
  lemma NormalizeTextIsWordFilter(text: string)
    ensures NormalizeText(text) == KeepWordChars(ToUpper(text))
  {
    KeepWordCharsAfterRemoveSpaces(ToUpper(Trim(text)));
    TrimmedWordsUnchanged(text);
  }

  lemma TrimmedWordsUnchanged(text: string)
    ensures KeepWordChars(ToUpper(Trim(text))) == KeepWordChars(ToUpper(text))
  {
    var a, b := TrimSplits(text);
    var pre, mid, post := text[..a], text[a..b], text[b..];
    assert text == pre + mid + post;
    var upper := ToUpper(mid);
    UpperOfSpaces(pre);
    UpperOfSpaces(post);
    ToUpperConcat(pre + mid, post);
    ToUpperConcat(pre, mid);
    assert ToUpper(text) == pre + upper + post;
    KeepWordCharsOfSpaces(pre);
    KeepWordCharsOfSpaces(post);
    KeepWordCharsConcat(pre + upper, post);
    KeepWordCharsConcat(pre, upper);
  }

  lemma UpperOfSpaces(s: string)
    requires forall i :: 0 <= i < |s| ==> IsSpace(s[i])
    ensures ToUpper(s) == s
  {
  }

  /** For any input the result holds only `A`-`Z`, `0`-`9` and `_`: white
      space and every other character are gone. */
  lemma NormalizeTextChars(text: string)
    ensures IsNormalized(NormalizeText(text))
  {
    NormalizeTextIsWordFilter(text);
    var n := NormalizeText(text);
    var u := ToUpper(text);
    forall i | 0 <= i < |n| ensures IsAsciiUpper(n[i]) || IsDigit(n[i]) || n[i] == '_' {
      KeepWordCharsMembership(u, n[i]);
      var j :| 0 <= j < |u| && u[j] == n[i];
      assert n[i] == UpperChar(text[j]);
    }
  }

  /** Normalised strings are exactly the fixed points of `normalizeText`. */
  lemma NormalizeTextFixedPoints(s: string)
    ensures NormalizeText(s) == s <==> IsNormalized(s)
  {
    NormalizeTextIsWordFilter(s);
    if IsNormalized(s) {
      assert ToUpper(s) == s;
      KeepWordCharsOfNormalized(s);
    } else {
      NormalizeTextChars(s);
    }
  }

  /** `normalizeText` is idempotent. */
  lemma NormalizeTextIdempotent(text: string)
    ensures NormalizeText(NormalizeText(text)) == NormalizeText(text)
  {
    NormalizeTextChars(text);
    NormalizeTextFixedPoints(NormalizeText(text));
  }

  /** Underscores survive normalisation (other punctuation does not). */
  lemma NormalizeTextKeepsUnderscore(text: string)
    ensures '_' in NormalizeText(text) <==> '_' in text
  {
    NormalizeTextIsWordFilter(text);
    KeepWordCharsMembership(ToUpper(text), '_');
    if '_' in text {
      var j :| 0 <= j < |text| && text[j] == '_';
      assert ToUpper(text)[j] == '_';
    }
  }

  // ---------------------------------------------------------------------
  // The cascade

  lemma FirstCategoryIs(table: seq<(string, Category)>, p: string -> bool, i: nat)
    requires i < |table| && p(table[i].0)
    requires forall j :: 0 <= j < i ==> !p(table[j].0)
    ensures FirstCategory(table, p) == Some(table[i].1)
  {
    FirstIndexIs(table, (e: (string, Category)) => p(e.0), i);
  }

  /** Text whose normalised form is exactly a `binMapping` key resolves to that key's category. */
  lemma ParseExactKey(text: string, i: nat)
    requires i < |BinMapping| && NormalizeText(text) == BinMapping[i].0
    ensures ParseBinCategory(text) == Some(BinMapping[i].1)
  {
    FirstCategoryIs(BinMapping, key => key == NormalizeText(text), i);
  }

  /** Text that is not itself a key but contains key `i` resolves to key `i`'s
      category, provided no earlier key matches in either direction. */
  lemma ParseContainedKey(text: string, i: nat)
    requires i < |BinMapping|
    requires forall j :: 0 <= j < |BinMapping| ==> BinMapping[j].0 != NormalizeText(text)
    requires Contains(NormalizeText(text), BinMapping[i].0)
    requires forall j :: 0 <= j < i ==> !PartialHit(NormalizeText(text), BinMapping[j].0)
    ensures ParseBinCategory(text) == Some(BinMapping[i].1)
  {
    var n := NormalizeText(text);
    FirstCategoryIs(BinMapping, binName => PartialHit(n, binName), i);
  }

  /** The partial step also accepts text that is a substring of a key; the
      empty string is a substring of the first key, so text that normalises
      to nothing resolves to `Plastic_PET`. */
  lemma ParseEmptyIsPet(text: string)
    requires NormalizeText(text) == ""
    ensures ParseBinCategory(text) == Some(PlasticPet)
  {
    ContainsEmpty(BinMapping[0].0);
    FirstCategoryIs(BinMapping, binName => PartialHit("", binName), 0);
  }

  /** When neither the exact nor the partial step matches, the first keyword
      of `fuzzyMap` (in table order) contained in the text decides. */
  lemma ParseFuzzy(text: string, i: nat)
    requires forall j :: 0 <= j < |BinMapping| ==> !PartialHit(NormalizeText(text), BinMapping[j].0)
    requires i < |FuzzyMap| && Contains(NormalizeText(text), FuzzyMap[i].0)
    requires forall j :: 0 <= j < i ==> !Contains(NormalizeText(text), FuzzyMap[j].0)
    ensures ParseBinCategory(text) == Some(FuzzyMap[i].1)
  {
    var n := NormalizeText(text);
    NoPartialNoDirect(n);
    FirstCategoryIs(FuzzyMap, keyword => Contains(n, keyword), i);
  }

  /** `PET` is the first keyword, so it wins every tie: text containing both
      `PET` and `METAL` (and no bin key) resolves to `Plastic_PET`. */
  lemma ParseFuzzyTie(text: string)
    requires forall j :: 0 <= j < |BinMapping| ==> !PartialHit(NormalizeText(text), BinMapping[j].0)
    requires Contains(NormalizeText(text), "PET")
    ensures ParseBinCategory(text) == Some(PlasticPet)
  {
    ParseFuzzy(text, 0);
  }

  lemma NoPartialNoDirect(n: string)
    requires forall j :: 0 <= j < |BinMapping| ==> !PartialHit(n, BinMapping[j].0)
    ensures DirectMatch(n) == None && PartialMatch(n) == None
  {
    forall j | 0 <= j < |BinMapping| ensures BinMapping[j].0 != n {
      assert OccursAt(n, n, 0);
    }
  }

  /** The parser returns `null` exactly when no key matches in either
      direction and no keyword occurs. */
  lemma ParseNoneIff(text: string)
    ensures var n := NormalizeText(text);
      ParseBinCategory(text) == None <==>
        (forall j :: 0 <= j < |BinMapping| ==> !PartialHit(n, BinMapping[j].0))
        && (forall j :: 0 <= j < |FuzzyMap| ==> !Contains(n, FuzzyMap[j].0))
  {
    var n := NormalizeText(text);
    if forall j :: 0 <= j < |BinMapping| ==> !PartialHit(n, BinMapping[j].0) {
      NoPartialNoDirect(n);
    }
  }

  /** The display name of `<x>_<y>` is `<x> - <y>`, as for every `Plastic_*` category. */
  lemma DisplayNameOfSplit(x: string, y: string)
    requires '_' !in x && '_' !in y
    ensures GetCategoryDisplayName(x + "_" + y) == x + " - " + y
  {
    DisplayNameConcat(x + "_", y);
    DisplayNameConcat(x, "_");
    assert GetCategoryDisplayName("_") == " - ";
  }

  lemma {:induction false} DisplayNameConcat(x: string, y: string)
    ensures GetCategoryDisplayName(x + y) == GetCategoryDisplayName(x) + GetCategoryDisplayName(y)
  {
    if |x| == 0 {
      assert x + y == y;
    } else {
      assert (x + y)[1..] == x[1..] + y;
      DisplayNameConcat(x[1..], y);
    }
  }

  // ---------------------------------------------------------------------
  // Worked inputs. Each concrete evaluation sits in a lemma of its own.

  /** Neither string occurs in the other when each has a character the other lacks. */
  lemma NoPartialHitByChars(n: string, binName: string, c: char, d: char)
    requires c in binName && c !in n
    requires d in n && d !in binName
    ensures !PartialHit(n, binName)
  {
    NotContainsChar(n, binName, c);
    NotContainsChar(binName, n, d);
  }

  lemma UpperBareMetal() ensures ToUpper(" Metal\n") == " METAL\n" {}
  lemma WordsBareMetal() ensures KeepWordChars(" METAL\n") == "METAL" {}

  lemma NormalizeBareMetal()
    ensures NormalizeText(" Metal\n") == "METAL"
  {
    NormalizeTextIsWordFilter(" Metal\n");
    UpperBareMetal();
    WordsBareMetal();
  }

  lemma DirectMissesMetal(n: string)
    requires n == "METAL"
    ensures DirectMatch(n) == None
  {
    forall j | 0 <= j < |BinMapping| ensures BinMapping[j].0 != n {
      assert |BinMapping[j].0| > 5;
    }
  }

  lemma PartialFindsMetal(n: string)
    requires n == "METAL"
    ensures PartialMatch(n) == Some(Metal)
  {
    forall j | 0 <= j < 4 ensures !PartialHit(n, BinMapping[j].0) {
      NotContainsChar(BinMapping[j].0, n, 'M');
      if Contains(n, BinMapping[j].0) {
        ContainsLength(n, BinMapping[j].0);
      }
    }
    assert OccursAt("METALBIN", n, 0);
    FirstCategoryIs(BinMapping, binName => PartialHit(n, binName), 4);
  }

  /** Case, surrounding white space and a trailing newline do not matter, and
      a truncated code is still found because `METALBIN` contains `METAL`. */
  lemma ParseBareMetal()
    ensures ParseBinCategory(" Metal\n") == Some(Metal)
  {
    NormalizeBareMetal();
    DirectMissesMetal("METAL");
    PartialFindsMetal("METAL");
  }

  /** No `binMapping` key holds `_`, so normalised text with an underscore is never a key. */
  lemma DirectMissesUnderscore(n: string)
    requires '_' in n
    ensures DirectMatch(n) == None
  {
    forall j | 0 <= j < |BinMapping| ensures BinMapping[j].0 != n {
      if j < 4 { KeyLacksUnderscoreLow(j); } else { KeyLacksUnderscoreHigh(j); }
    }
  }

  lemma KeyLacksUnderscoreLow(j: nat)
    requires j < 4
    ensures '_' !in BinMapping[j].0
  {
  }

  lemma KeyLacksUnderscoreHigh(j: nat)
    requires 4 <= j < |BinMapping|
    ensures '_' !in BinMapping[j].0
  {
  }

  lemma NormalizeZoneMetal()
    ensures NormalizeText("Z_METALBIN") == "Z_METALBIN"
  {
    assert IsNormalized("Z_METALBIN");
    NormalizeTextFixedPoints("Z_METALBIN");
  }

  /** A payload holding `_` but none of `P`, `F`, `R`, `C` matches none of
      the first four keys partially: each key holds one of those letters and
      lacks `_`. */
  lemma MissesFirstKeys(n: string)
    requires '_' in n && 'P' !in n && 'F' !in n && 'R' !in n && 'C' !in n
    ensures forall j :: 0 <= j < 4 ==> !PartialHit(n, BinMapping[j].0)
  {
    forall j | 0 <= j < 4 ensures !PartialHit(n, BinMapping[j].0) {
      if j == 0 { NoPartialHitByChars(n, "PETBIN", 'P', '_'); }
      else if j == 1 { NoPartialHitByChars(n, "FLEXIBLEBIN", 'F', '_'); }
      else if j == 2 { NoPartialHitByChars(n, "RIGIDBIN", 'R', '_'); }
      else { NoPartialHitByChars(n, "CUTLERYBIN", 'C', '_'); }
    }
  }

  /** A key inside a longer payload is found by the partial step; the four
      keys before `METALBIN` each hold a letter the payload lacks. */
  lemma PartialFindsZoneMetal(n: string)
    requires n == "Z_METALBIN"
    ensures PartialMatch(n) == Some(Metal)
  {
    assert n[1] == '_';
    MissesFirstKeys(n);
    assert OccursAt(n, "METALBIN", 2);
    FirstCategoryIs(BinMapping, binName => PartialHit(n, binName), 4);
  }

  lemma ParseEmbeddedKey()
    ensures ParseBinCategory("Z_METALBIN") == Some(Metal)
  {
    NormalizeZoneMetal();
    DirectMissesUnderscore("Z_METALBIN");
    PartialFindsZoneMetal("Z_METALBIN");
  }

  lemma UpperPetBin() ensures ToUpper("pet bin") == "PET BIN" {}
  lemma WordsPetBin() ensures KeepWordChars("PET BIN") == "PETBIN" {}

  /** White space inside the code is removed, so `pet bin` is the key `PETBIN`. */
  lemma ParsePetBin()
    ensures ParseBinCategory("pet bin") == Some(PlasticPet)
  {
    NormalizeTextIsWordFilter("pet bin");
    UpperPetBin();
    WordsPetBin();
    ParseExactKey("pet bin", 0);
  }

  lemma UpperPetUnderscore() ensures ToUpper("pet_bin") == "PET_BIN" {}
  lemma WordsPetUnderscore() ensures KeepWordChars("PET_BIN") == "PET_BIN" {}

  lemma NormalizePetUnderscore()
    ensures NormalizeText("pet_bin") == "PET_BIN"
  {
    NormalizeTextIsWordFilter("pet_bin");
    UpperPetUnderscore();
    WordsPetUnderscore();
  }

  /** A key with `_` put inside it is no longer a partial match for that
      key: the payload is one character too long to lie in the key, and at
      both offsets where the key could lie in it the `_` breaks it. */
  lemma SplitKeyMisses(n: string, key: string, i: nat)
    requires 0 < i < |key| && '_' !in key && n == key[..i] + "_" + key[i..]
    ensures !PartialHit(n, key)
  {
    assert n[i] == '_';
    NotContainsChar(key, n, '_');
    assert !OccursAt(n, key, 0) by {
      assert n[i] != key[i];
    }
    assert !OccursAt(n, key, 1) by {
      assert n[1..][i - 1] != key[i - 1];
    }
  }

  lemma PetUnderscoreMissesFirstKeys(n: string)
    requires n == "PET_BIN"
    ensures forall j :: 0 <= j < 4 ==> !PartialHit(n, BinMapping[j].0)
  {
    forall j | 0 <= j < 4 ensures !PartialHit(n, BinMapping[j].0) {
      if j == 0 { SplitKeyMisses(n, "PETBIN", 3); }
      else if j == 1 { NoPartialHitByChars(n, "FLEXIBLEBIN", 'F', '_'); }
      else if j == 2 { NoPartialHitByChars(n, "RIGIDBIN", 'R', '_'); }
      else { NoPartialHitByChars(n, "CUTLERYBIN", 'C', '_'); }
    }
  }

  lemma PetUnderscoreMissesLastKeys(n: string)
    requires n == "PET_BIN"
    ensures forall j :: 4 <= j < |BinMapping| ==> !PartialHit(n, BinMapping[j].0)
  {
    forall j | 4 <= j < |BinMapping| ensures !PartialHit(n, BinMapping[j].0) {
      if j == 4 { NoPartialHitByChars(n, "METALBIN", 'M', '_'); }
      else if j == 5 { NoPartialHitByChars(n, "PAPERBIN", 'A', '_'); }
      else if j == 6 { NoPartialHitByChars(n, "GLASSBIN", 'G', '_'); }
      else { NoPartialHitByChars(n, "ORGANICBIN", 'O', '_'); }
    }
  }

  /** `_` is a word character, so it survives normalisation and splits the
      key: `pet_bin` matches no `binMapping` key in either direction and is
      recognised only by the keyword `PET`. */
  lemma ParsePetUnderscoreIsFuzzy()
    ensures PartialMatch(NormalizeText("pet_bin")) == None
    ensures ParseBinCategory("pet_bin") == Some(PlasticPet)
  {
    NormalizePetUnderscore();
    PetUnderscoreMissesFirstKeys("PET_BIN");
    PetUnderscoreMissesLastKeys("PET_BIN");
    NoPartialNoDirect("PET_BIN");
    assert OccursAt("PET_BIN", "PET", 0);
    ParseFuzzy("pet_bin", 0);
  }

  lemma NormalizeMetalUnderscore()
    ensures NormalizeText("METAL_BIN") == "METAL_BIN"
  {
    assert IsNormalized("METAL_BIN");
    NormalizeTextFixedPoints("METAL_BIN");
  }

  lemma MetalUnderscoreMissesKeys(n: string)
    requires n == "METAL_BIN"
    ensures forall j :: 0 <= j < |BinMapping| ==> !PartialHit(n, BinMapping[j].0)
  {
    assert n[5] == '_';
    MissesFirstKeys(n);
    forall j | 4 <= j < |BinMapping| ensures !PartialHit(n, BinMapping[j].0) {
      if j == 4 { SplitKeyMisses(n, "METALBIN", 5); }
      else if j == 5 { NoPartialHitByChars(n, "PAPERBIN", 'P', '_'); }
      else if j == 6 { NoPartialHitByChars(n, "GLASSBIN", 'G', '_'); }
      else { NoPartialHitByChars(n, "ORGANICBIN", 'O', '_'); }
    }
  }

  lemma MetalUnderscoreKeywords(n: string)
    requires n == "METAL_BIN"
    ensures Contains(n, FuzzyMap[4].0)
    ensures forall j :: 0 <= j < 4 ==> !Contains(n, FuzzyMap[j].0)
  {
    assert OccursAt(n, "METAL", 0);
    NotContainsChar(n, "PET", 'P');
    NotContainsChar(n, "FLEXIBLE", 'F');
    NotContainsChar(n, "RIGID", 'R');
    NotContainsChar(n, "CUTLERY", 'C');
  }

  /** Likewise `METAL_BIN` is recognised only by the keyword `METAL`; the
      keywords before it each hold a letter the text lacks. */
  lemma ParseMetalUnderscoreIsFuzzy()
    ensures PartialMatch(NormalizeText("METAL_BIN")) == None
    ensures ParseBinCategory("METAL_BIN") == Some(Metal)
  {
    var n := "METAL_BIN";
    NormalizeMetalUnderscore();
    MetalUnderscoreMissesKeys(n);
    NoPartialNoDirect(n);
    MetalUnderscoreKeywords(n);
    ParseFuzzy("METAL_BIN", 4);
  }

  lemma UpperUnknown() ensures ToUpper("xyz-123") == "XYZ-123" {}
  lemma WordsUnknown() ensures KeepWordChars("XYZ-123") == "XYZ123" {}

  lemma NormalizeUnknown()
    ensures NormalizeText("xyz-123") == "XYZ123"
  {
    NormalizeTextIsWordFilter("xyz-123");
    UpperUnknown();
    WordsUnknown();
  }

  lemma UnknownMissesTables(n: string)
    requires n == "XYZ123"
    ensures forall j :: 0 <= j < |BinMapping| ==> !PartialHit(n, BinMapping[j].0)
    ensures forall j :: 0 <= j < |FuzzyMap| ==> !Contains(n, FuzzyMap[j].0)
  {
    forall j | 0 <= j < |BinMapping| ensures !PartialHit(n, BinMapping[j].0) {
      NoPartialHitByChars(n, BinMapping[j].0, 'B', '1');
    }
    forall j | 0 <= j < |FuzzyMap| ensures !Contains(n, FuzzyMap[j].0) {
      NotContainsChar(n, FuzzyMap[j].0, FuzzyMap[j].0[0]);
    }
  }

  /** Unrecognised text resolves to `null`: every key holds a `B` and no
      digit, and no keyword's first letter occurs. */
  lemma ParseUnknownIsNull()
    ensures ParseBinCategory("xyz-123") == None
  {
    NormalizeUnknown();
    UnknownMissesTables("XYZ123");
    ParseNoneIff("xyz-123");
  }

  lemma WordsBlank() ensures KeepWordChars(ToUpper("   ")) == "" {}
  lemma WordsPunctuation() ensures KeepWordChars(ToUpper("!!!")) == "" {}

  /** Empty, blank and punctuation-only text all resolve to `Plastic_PET`. */
  lemma ParseBlankIsPet()
    ensures ParseBinCategory("") == Some(PlasticPet)
    ensures ParseBinCategory("   ") == Some(PlasticPet)
    ensures ParseBinCategory("!!!") == Some(PlasticPet)
  {
    NormalizeTextIsWordFilter("");
    ParseEmptyIsPet("");
    NormalizeTextIsWordFilter("   ");
    WordsBlank();
    ParseEmptyIsPet("   ");
    NormalizeTextIsWordFilter("!!!");
    WordsPunctuation();
    ParseEmptyIsPet("!!!");
  }

}
