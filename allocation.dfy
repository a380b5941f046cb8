/** The slug allocation shared by the news and blog create actions: normalise the parsed
    slug, append '-' and four random digits unless it already ends that way, then keep
    drawing fresh digits for the same prefix while the store reports the slug as taken. */
module Allocation {
  import opened Text
  import opened Slug

  /** Four digits as `randomDigits(4)` draws them: 1000 to 9999, so no leading zero. */
  predicate IsSuffixDigits(d: string) {
    |d| == 4 && AllDigits(d) && d[0] != '0'
  }

  /** `/-\d{4}$/.test(s)`: the last five characters are '-' and four digits. */
  predicate HasDigitSuffix(s: string) {
    |s| >= 5 && s[|s| - 5] == '-' && AllDigits(s[|s| - 4..])
  }

  /** `s.replace(/-\d{4}$/, '')`: drops one trailing '-dddd' when there is one. */
  function StripDigitSuffix(s: string): (r: string)
    ensures HasDigitSuffix(s) ==> r + s[|s| - 5..] == s && |r| == |s| - 5
    ensures !HasDigitSuffix(s) ==> r == s
  {
    if HasDigitSuffix(s) then s[..|s| - 5] else s
  }

  /** `${base}-${digits}` */
  function WithSuffix(base: string, digits: string): (r: string)
    ensures |r| == |base| + 1 + |digits|
  {
    base + "-" + digits
  }

  /** Appending a suffix and stripping it again gives back the base. */
  lemma StripWithSuffix(base: string, digits: string)
    requires IsSuffixDigits(digits)
    ensures HasDigitSuffix(WithSuffix(base, digits))
    ensures StripDigitSuffix(WithSuffix(base, digits)) == base
  {
    var s := WithSuffix(base, digits);
    assert s[|s| - 4..] == digits;
    assert s[..|s| - 5] == base;
  }

  /** A non-empty slug with a suffix appended is still a slug, and carries the suffix. */
  lemma SuffixKeepsSlug(base: string, digits: string)
    requires IsSlug(base) && base != [] && IsSuffixDigits(digits)
    ensures IsSlug(WithSuffix(base, digits)) && HasDigitSuffix(WithSuffix(base, digits))
  {
    StripWithSuffix(base, digits);
    var s := WithSuffix(base, digits);
    forall i | 0 <= i < |s| ensures IsSlugChar(s[i]) {
      if i < |base| {
        assert s[i] == base[i];
      } else if i > |base| {
        assert s[i] == digits[i - |base| - 1];
      }
    }
    forall i | 0 <= i < |s| - 1 ensures !(s[i] == '-' && s[i + 1] == '-') {
      if i < |base| - 1 {
        assert s[i] == base[i] && s[i + 1] == base[i + 1];
      } else if i == |base| - 1 {
        assert s[i] == base[|base| - 1];
      } else if i >= |base| {
        assert s[i + 1] == digits[i - |base|];
      }
    }
  }

  /** Stripping the suffix of a slug that has one leaves a non-empty slug. */
  lemma StripKeepsSlug(s: string)
    requires IsSlug(s) && s != [] && HasDigitSuffix(s)
    ensures IsSlug(StripDigitSuffix(s)) && StripDigitSuffix(s) != []
  {
    var r := StripDigitSuffix(s);
    assert s[0] != '-' && s[|s| - 5] == '-';
    SliceNoDouble(s, 0, |s| - 5);
    assert r == s[0..|s| - 5];
    assert r[|r| - 1] == s[|s| - 6];
  }

  /** The slug `createNews`/`createArticle` starts probing with: the normalised input, with
      the given digits appended when it has no suffix yet. */
  function BaseSlug(normalised: string, digits: string): (r: string)
    requires normalised != []
  {
    if HasDigitSuffix(normalised) then normalised else WithSuffix(normalised, digits)
  }

  /** The prefix every candidate shares: the normalised input without its suffix. */
  function Prefix(normalised: string): string
  {
    StripDigitSuffix(normalised)
  }

  /** The base slug is a slug with a suffix, and its suffix-stripped form is `Prefix`. */
  lemma BaseSlugShape(normalised: string, digits: string)
    requires IsSlug(normalised) && normalised != [] && IsSuffixDigits(digits)
    ensures IsSlug(BaseSlug(normalised, digits)) && HasDigitSuffix(BaseSlug(normalised, digits))
    ensures StripDigitSuffix(BaseSlug(normalised, digits)) == Prefix(normalised)
    ensures Prefix(normalised) != [] && IsSlug(Prefix(normalised))
  {
    if HasDigitSuffix(normalised) {
      StripKeepsSlug(normalised);
    } else {
      StripWithSuffix(normalised, digits);
      SuffixKeepsSlug(normalised, digits);
    }
  }

  /** A slug the loop may try: the base itself, or the prefix with fresh digits. */
  predicate IsCandidate(baseSlug: string, s: string) {
    || s == baseSlug
    || (|s| >= 4 && IsSuffixDigits(s[|s| - 4..])
        && s == WithSuffix(StripDigitSuffix(baseSlug), s[|s| - 4..]))
  }

  /** Every candidate of a suffixed slug is a slug with a suffix and the same prefix. */
  lemma CandidateShape(baseSlug: string, s: string)
    requires IsSlug(baseSlug) && baseSlug != [] && HasDigitSuffix(baseSlug)
    requires IsCandidate(baseSlug, s)
    ensures IsSlug(s) && s != [] && HasDigitSuffix(s)
    ensures StripDigitSuffix(s) == StripDigitSuffix(baseSlug)
  {
    if s != baseSlug {
      var d := s[|s| - 4..];
      StripKeepsSlug(baseSlug);
      SuffixKeepsSlug(StripDigitSuffix(baseSlug), d);
      StripWithSuffix(StripDigitSuffix(baseSlug), d);
    }
  }

  /** How the probing loop ends: with a free slug, with a store error on a lookup, or
      (only because the model bounds the loop) with the fuel used up. */
  datatype Probe = Free(slug: string) | LookupFailed | OutOfFuel

  /** `let slug = baseSlug; while (await findUnique({ where: { slug } })) { … }`: `taken`
      is the set of slugs in the store, which nothing else changes during the request. Any
      lookup may throw instead of answering. */
  method FindFreeSlug(baseSlug: string, taken: set<string>, fuel: nat) returns (r: Probe)
    ensures r.Free? ==> r.slug !in taken && IsCandidate(baseSlug, r.slug)
    ensures r.Free? && baseSlug !in taken ==> r.slug == baseSlug
    ensures r.Free? && r.slug != baseSlug ==> baseSlug in taken
  {
    var slug := baseSlug;
    var f := fuel;
    while f > 0
      invariant IsCandidate(baseSlug, slug)
      invariant slug != baseSlug ==> baseSlug in taken
      decreases f
    {
      var lookupThrows: bool := *;
      if lookupThrows {
        return LookupFailed;
      }
      if slug !in taken {
        return Free(slug);
      }
      var digits := RandomDigits(4);
      slug := WithSuffix(StripDigitSuffix(baseSlug), digits);
      assert slug[|slug| - 4..] == digits;
      f := f - 1;
    }
    return OutOfFuel;
  }
}
