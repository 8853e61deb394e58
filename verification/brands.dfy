/** `getBrandLogo`: a brand name reduced to its lower-case letters, looked up
    in a fixed table of logo files, with a default for unknown brands. Brand
    names are ASCII in this model. */
module Brands {
  import opened JsValues
  import opened Lists

  const LogoDirectory: string := "./images/brands/"
  const DefaultLogo: string := "default.webp"

  /** The table of normalised brand names and their logo files. */
  const BrandToLogo: map<string, string> := map[
    "bp" := "BP.webp",
    "jet" := "JET.webp",
    "shell" := "SHELL.webp",
    "texaco" := "TEXACO.webp",
    "esso" := "ESSO.webp",
    "valero" := "VALERO.webp",
    "murco" := "MURCO.webp",
    "morrisons" := "MORRISONS.webp",
    "asda" := "ASDA.webp",
    "asdaexpress" := "ASDA.webp",
    "sainsburys" := "SAINSBURYS.webp",
    "tesco" := "TESCO.webp",
    "coop" := "COOP.webp",
    "essar" := "ESSAR.webp"
  ]

  predicate IsAscii(s: string) {
    forall i :: 0 <= i < |s| ==> s[i] < 128 as char
  }

  predicate IsLetter(c: char) {
    'a' <= c <= 'z'
  }

  /** `toLowerCase` on one ASCII character. */
  function LowerAscii(c: char): (r: char)
    requires c < 128 as char
    ensures r < 128 as char
    ensures 'A' <= c <= 'Z' ==> IsLetter(r) && r as int == c as int + 32
    ensures !('A' <= c <= 'Z') ==> r == c
  {
    if 'A' <= c <= 'Z' then (c as int + 32) as char else c
  }

  /** `s.toLowerCase()` on an ASCII string. */
  function Lower(s: string): (r: string)
    requires IsAscii(s)
    ensures |r| == |s| && IsAscii(r)
    ensures forall i :: 0 <= i < |s| ==> r[i] == LowerAscii(s[i])
  {
    seq(|s|, i requires 0 <= i < |s| => LowerAscii(s[i]))
  }

  /** `brand.toLowerCase().replace(/[^a-z]/g, "")`. */
  function BrandKey(brand: string): (k: string)
    requires IsAscii(brand)
    ensures forall i :: 0 <= i < |k| ==> IsLetter(k[i])
    ensures |k| <= |brand|
  {
    Filter(Lower(brand), IsLetter)
  }

  /** The key keeps every letter of the lower-cased brand, as often as it
      occurs and in order, and drops everything else. */
  lemma BrandKeyKeepsLetters(brand: string)
    requires IsAscii(brand)
    ensures IsSubsequence(BrandKey(brand), Lower(brand))
    ensures forall c :: IsLetter(c) ==> multiset(BrandKey(brand))[c] == multiset(Lower(brand))[c]
    ensures forall c :: !IsLetter(c) ==> c !in BrandKey(brand)
  {
    FilterIsSubsequence(Lower(brand), IsLetter);
    FilterCountsAll(Lower(brand), IsLetter);
  }

  /** The logo file of a normalised key: its table entry, else the default. */
  function LogoFile(key: string): (f: string)
    ensures f in BrandToLogo.Values || f == DefaultLogo
    ensures key in BrandToLogo ==> f == BrandToLogo[key]
    ensures key !in BrandToLogo ==> f == DefaultLogo
  {
    if key in BrandToLogo then BrandToLogo[key] else DefaultLogo
  }

  /** `getBrandLogo(brand)`: a path under the logo directory, or a TypeError
      when the brand is not a string (it has no `toLowerCase`). */
  function GetBrandLogo(brand: Value): (r: Result<string>)
    requires brand.Str? ==> IsAscii(brand.s)
    ensures r.Ok? <==> brand.Str?
    ensures r.Err? ==> r.error == TypeError
    ensures r.Ok? ==> |r.value| > |LogoDirectory| && r.value[..|LogoDirectory|] == LogoDirectory
    ensures r.Ok? ==> r.value[|LogoDirectory|..] in BrandToLogo.Values + {DefaultLogo}
  {
    match brand
    case Str(s) => Ok(LogoDirectory + LogoFile(BrandKey(s)))
    case _ => Err(TypeError)
  }

  /** No table entry is the default file, so the default is shown exactly for
      brands whose key is not in the table. */
  lemma DefaultOnlyForUnknownBrands(s: string)
    requires IsAscii(s)
    ensures GetBrandLogo(Str(s)).value == LogoDirectory + DefaultLogo <==> BrandKey(s) !in BrandToLogo
  {
    var key := BrandKey(s);
    if key in BrandToLogo {
      assert BrandToLogo[key] != DefaultLogo;
      assert (LogoDirectory + LogoFile(key))[|LogoDirectory|..] == LogoFile(key);
    }
  }

  /** A brand whose key is in the table gets that key's own file. */
  lemma KnownBrandGetsItsFile(s: string)
    requires IsAscii(s) && BrandKey(s) in BrandToLogo
    ensures GetBrandLogo(Str(s)) == Ok(LogoDirectory + BrandToLogo[BrandKey(s)])
  {
  }

  /** Normalising a key again changes nothing. */
  lemma BrandKeyIdempotent(brand: string)
    requires IsAscii(brand)
    ensures IsAscii(BrandKey(brand))
    ensures BrandKey(BrandKey(brand)) == BrandKey(brand)
  {
    var k := BrandKey(brand);
    assert Lower(k) == k;
    FilterKeepsAll(k, IsLetter);
  }

  /** Brands that differ only in letter case have the same key. */
  lemma CaseDoesNotMatter(a: string, b: string)
    requires IsAscii(a) && IsAscii(b) && Lower(a) == Lower(b)
    ensures BrandKey(a) == BrandKey(b)
  {
  }

  /** The key of a concatenation is the concatenation of the keys. */
  lemma BrandKeyConcat(a: string, b: string)
    requires IsAscii(a) && IsAscii(b)
    ensures IsAscii(a + b)
    ensures BrandKey(a + b) == BrandKey(a) + BrandKey(b)
  {
    assert Lower(a + b) == Lower(a) + Lower(b);
    FilterConcat(Lower(a), Lower(b), IsLetter);
  }

  /** Inserting a character that is not a letter (a space, a digit, an
      apostrophe, a hyphen) anywhere leaves the key unchanged. */
  lemma NonLettersDoNotMatter(s: string, i: nat, c: char)
    requires IsAscii(s) && i <= |s| && c < 128 as char
    requires !('a' <= c <= 'z') && !('A' <= c <= 'Z')
    ensures IsAscii(s[..i] + [c] + s[i..])
    ensures BrandKey(s[..i] + [c] + s[i..]) == BrandKey(s)
  {
    var front, back := s[..i], s[i..];
    assert BrandKey([c]) == [] by {
      assert Lower([c]) == [c];
    }
    BrandKeyConcat(front, [c]);
    BrandKeyConcat(front + [c], back);
    BrandKeyConcat(front, back);
    assert front + back == s;
  }

  /** Brands with the same key get the same logo. */
  lemma SameKeySameLogo(a: string, b: string)
    requires IsAscii(a) && IsAscii(b) && BrandKey(a) == BrandKey(b)
    ensures GetBrandLogo(Str(a)) == GetBrandLogo(Str(b))
  {
  }

  /** The logo of a brand is the file of its key under the logo directory. */
  lemma LogoOfKey(s: string, key: string)
    requires IsAscii(s) && BrandKey(s) == key
    ensures GetBrandLogo(Str(s)) == Ok(LogoDirectory + LogoFile(key))
  {
  }

  /** The keys of the example brands. */
  lemma AsdaKey()
    ensures BrandKey("Asda") == "asda"
  {
  }

  lemma CoopKey()
    ensures BrandKey("Co-op") == "coop"
  {
  }

  lemma GulfKey()
    ensures BrandKey("Gulf") == "gulf"
  {
  }

  /** Both Asda keys in the table share one logo, and the brand as the feeds
      spell it maps to it. */
  lemma AsdaLogos()
    ensures LogoFile("asdaexpress") == LogoFile("asda") == "ASDA.webp"
    ensures GetBrandLogo(Str("Asda")) == Ok("./images/brands/ASDA.webp")
  {
    AsdaKey();
    LogoOfKey("Asda", "asda");
    assert LogoDirectory + "ASDA.webp" == "./images/brands/ASDA.webp";
  }

  /** Punctuation inside a brand name is ignored. */
  lemma CoopLogo()
    ensures GetBrandLogo(Str("Co-op")) == Ok("./images/brands/COOP.webp")
  {
    CoopKey();
    LogoOfKey("Co-op", "coop");
    assert LogoDirectory + "COOP.webp" == "./images/brands/COOP.webp";
  }

  /** A brand outside the table gets the default logo, and a missing brand
      throws. */
  lemma UnknownAndMissingBrands()
    ensures GetBrandLogo(Str("Gulf")) == Ok("./images/brands/default.webp")
    ensures GetBrandLogo(Null) == Err(TypeError)
  {
    GulfKey();
    LogoOfKey("Gulf", "gulf");
    assert LogoDirectory + DefaultLogo == "./images/brands/default.webp";
  }
}
