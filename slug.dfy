/** `slugify` and `randomDigits`: the normaliser that turns a title into a URL-safe slug,
    and the random numeric suffix drawn for new slugs. */
module Slug {
  import opened Text

  /** No two hyphens in a row. */
  predicate NoDoubleHyphen(t: string) {
    forall i :: 0 <= i < |t| - 1 ==> !(t[i] == '-' && t[i + 1] == '-')
  }

  /** The shape every `slugify` result has: only `[a-z0-9-]`, no "--", and no hyphen at
      either end. */
  predicate IsSlug(t: string) {
    && AllSlugChars(t)
    && NoDoubleHyphen(t)
    && (t != [] ==> t[0] != '-' && t[|t| - 1] != '-')
  }

  /** The characters of class `[a-z0-9]` of `s`, in order. */
  function Alnums(s: string): (r: string)
    ensures |r| <= |s|
  {
    if s == [] then [] else (if IsAlnum(s[0]) then [s[0]] else []) + Alnums(s[1..])
  }

  /** Drops the leading run of characters outside `[a-z0-9]`. */
  function SkipNonAlnum(s: string): (r: string)
    ensures |r| <= |s| && r == s[|s| - |r|..]
    ensures r == [] || IsAlnum(r[0])
    ensures forall i :: 0 <= i < |s| - |r| ==> !IsAlnum(s[i])
  {
    if s == [] || IsAlnum(s[0]) then s else SkipNonAlnum(s[1..])
  }

  /** `.replace(/[^a-z0-9]+/g, '-')`: every maximal run of characters outside `[a-z0-9]`
      becomes a single hyphen. */
  function CollapseRuns(s: string): (r: string)
    ensures AllSlugChars(r) && NoDoubleHyphen(r)
    ensures r == [] <==> s == []
    ensures s != [] && IsAlnum(s[0]) ==> r[0] == s[0]
    ensures s != [] && !IsAlnum(s[0]) ==> r[0] == '-'
    decreases |s|
  {
    if s == [] then []
    else if IsAlnum(s[0]) then [s[0]] + CollapseRuns(s[1..])
    else "-" + CollapseRuns(SkipNonAlnum(s))
  }

  function DropLeadingHyphens(s: string): (r: string)
    ensures |r| <= |s| && r == s[|s| - |r|..]
    ensures r == [] || r[0] != '-'
    ensures forall i :: 0 <= i < |s| - |r| ==> s[i] == '-'
  {
    if s == [] || s[0] != '-' then s else DropLeadingHyphens(s[1..])
  }

  function DropTrailingHyphens(s: string): (r: string)
    ensures |r| <= |s| && r == s[..|r|]
    ensures r == [] || r[|r| - 1] != '-'
    ensures forall i :: |r| <= i < |s| ==> s[i] == '-'
  {
    if s == [] || s[|s| - 1] != '-' then s else DropTrailingHyphens(s[..|s| - 1])
  }

  /** `.replace(/^-+|-+$/g, '')` */
  function StripHyphens(s: string): string
  {
    DropTrailingHyphens(DropLeadingHyphens(s))
  }

  /** `.replace(/-{2,}/g, '-')`: every run of hyphens becomes one hyphen. */
  function SqueezeHyphens(s: string): (r: string)
    ensures |r| <= |s|
    decreases |s|
  {
    if s == [] then []
    else if s[0] == '-' then "-" + SqueezeHyphens(DropLeadingHyphens(s))
    else [s[0]] + SqueezeHyphens(s[1..])
  }

  /** `slugify(input)`: lower-case, trim, collapse, strip, squeeze, in that order. */
  function Slugify(input: string): string
  {
    SqueezeHyphens(StripHyphens(CollapseRuns(Trim(Lower(input)))))
  }

  // ---------------------------------------------------------------------------
  // Shape of the result

  /** A slice of a string without "--" has none either. */
  lemma SliceNoDouble(s: string, lo: int, hi: int)
    requires 0 <= lo <= hi <= |s| && AllSlugChars(s) && NoDoubleHyphen(s)
    ensures AllSlugChars(s[lo..hi]) && NoDoubleHyphen(s[lo..hi])
  {
    var t := s[lo..hi];
    forall i | 0 <= i < |t| - 1 ensures !(t[i] == '-' && t[i + 1] == '-') {
      assert t[i] == s[lo + i] && t[i + 1] == s[lo + i + 1];
    }
  }

  /** The last replace of `slugify` changes nothing: no "--" is left by then. */
  lemma {:induction false} SqueezeIsIdentity(t: string)
    requires NoDoubleHyphen(t)
    ensures SqueezeHyphens(t) == t
    decreases |t|
  {
    if t == [] {
    } else {
      assert NoDoubleHyphen(t[1..]) by {
        forall i | 0 <= i < |t[1..]| - 1 ensures !(t[1..][i] == '-' && t[1..][i + 1] == '-') {
          assert t[1..][i] == t[i + 1] && t[1..][i + 1] == t[i + 2];
        }
      }
      SqueezeIsIdentity(t[1..]);
      if t[0] == '-' {
        assert |t| == 1 || t[1] != '-';
        assert DropLeadingHyphens(t) == t[1..];
      }
      assert [t[0]] + t[1..] == t;
    }
  }

  /** Stripping the end hyphens of a string built from `[a-z0-9-]` without "--" yields a slug. */
  lemma StripGivesSlug(s: string)
    requires AllSlugChars(s) && NoDoubleHyphen(s)
    ensures IsSlug(StripHyphens(s))
  {
    var a := DropLeadingHyphens(s);
    SliceNoDouble(s, |s| - |a|, |s|);
    var b := DropTrailingHyphens(a);
    SliceNoDouble(a, 0, |b|);
    if b != [] {
      assert b[0] == a[0];
    }
  }

  /** Every `slugify` result is a slug: only `[a-z0-9-]`, no leading or trailing hyphen,
      no "--". */
  lemma SlugifyIsSlug(input: string)
    ensures IsSlug(Slugify(input))
  {
    var c := CollapseRuns(Trim(Lower(input)));
    StripGivesSlug(c);
    SqueezeIsIdentity(StripHyphens(c));
  }

  // ---------------------------------------------------------------------------
  // Letters and digits are kept, in order

  lemma {:induction false} AlnumsAppend(a: string, b: string)
    ensures Alnums(a + b) == Alnums(a) + Alnums(b)
    decreases |a|
  {
    if a == [] {
      assert a + b == b;
    } else {
      AlnumsAppend(a[1..], b);
      assert (a + b)[1..] == a[1..] + b;
    }
  }

  /** A string with no character of `[a-z0-9]` contributes nothing. */
  lemma {:induction false} AlnumsNone(s: string)
    requires forall i :: 0 <= i < |s| ==> !IsAlnum(s[i])
    ensures Alnums(s) == []
    decreases |s|
  {
    if s != [] {
      AlnumsNone(s[1..]);
    }
  }

  /** `Alnums(s)` is empty exactly when `s` holds no character of `[a-z0-9]`. */
  lemma {:induction false} AlnumsEmptyIff(s: string)
    ensures Alnums(s) == [] <==> forall i :: 0 <= i < |s| ==> !IsAlnum(s[i])
    decreases |s|
  {
    if s != [] {
      AlnumsEmptyIff(s[1..]);
      if !IsAlnum(s[0]) {
        forall i | 0 <= i < |s| && (forall j :: 0 <= j < |s[1..]| ==> !IsAlnum(s[1..][j]))
          ensures !IsAlnum(s[i])
        {
          if i > 0 { assert s[i] == s[1..][i - 1]; }
        }
      }
    }
  }

  /** `Alnums` of a string split at `k` is the concatenation of the parts' `Alnums`. */
  lemma AlnumsSplitAt(s: string, k: int)
    requires 0 <= k <= |s|
    ensures Alnums(s) == Alnums(s[..k]) + Alnums(s[k..])
  {
    assert s == s[..k] + s[k..];
    AlnumsAppend(s[..k], s[k..]);
  }

  lemma {:induction false} CollapseKeepsAlnums(s: string)
    ensures Alnums(CollapseRuns(s)) == Alnums(s)
    decreases |s|
  {
    if s == [] {
    } else if IsAlnum(s[0]) {
      CollapseKeepsAlnums(s[1..]);
      AlnumsAppend([s[0]], CollapseRuns(s[1..]));
    } else {
      var rest := SkipNonAlnum(s);
      CollapseKeepsAlnums(rest);
      AlnumsAppend("-", CollapseRuns(rest));
      AlnumsSplitAt(s, |s| - |rest|);
      AlnumsNone(s[..|s| - |rest|]);
    }
  }

  /** Dropping leading whitespace drops no letter or digit. */
  lemma TrimStartKeepsAlnums(s: string)
    ensures Alnums(TrimStart(s)) == Alnums(s)
  {
    var k := |s| - |TrimStart(s)|;
    AlnumsSplitAt(s, k);
    forall i | 0 <= i < k ensures !IsAlnum(s[..k][i]) {
      assert IsWhitespace(s[i]);
    }
    AlnumsNone(s[..k]);
  }

  /** Dropping trailing whitespace drops no letter or digit. */
  lemma TrimEndKeepsAlnums(a: string)
    ensures Alnums(TrimEnd(a)) == Alnums(a)
  {
    var b := TrimEnd(a);
    AlnumsSplitAt(a, |b|);
    forall i | 0 <= i < |a| - |b| ensures !IsAlnum(a[|b|..][i]) {
      assert IsWhitespace(a[|b| + i]);
    }
    AlnumsNone(a[|b|..]);
  }

  lemma TrimKeepsAlnums(s: string)
    ensures Alnums(Trim(s)) == Alnums(s)
  {
    TrimStartKeepsAlnums(s);
    TrimEndKeepsAlnums(TrimStart(s));
  }

  lemma StripKeepsAlnums(s: string)
    ensures Alnums(StripHyphens(s)) == Alnums(s)
  {
    var a := DropLeadingHyphens(s);
    AlnumsSplitAt(s, |s| - |a|);
    AlnumsNone(s[..|s| - |a|]);
    var b := DropTrailingHyphens(a);
    AlnumsSplitAt(a, |b|);
    AlnumsNone(a[|b|..]);
  }

  /** The lower-cased letters and digits of the input all reach the output, in the same order,
      and nothing else of class `[a-z0-9]` does. */
  lemma SlugifyKeepsAlnums(input: string)
    ensures Alnums(Slugify(input)) == Alnums(Lower(input))
  {
    var l := Lower(input);
    var c := CollapseRuns(Trim(l));
    StripGivesSlug(c);
    SqueezeIsIdentity(StripHyphens(c));
    StripKeepsAlnums(c);
    CollapseKeepsAlnums(Trim(l));
    TrimKeepsAlnums(l);
  }

  /** `slugify` returns "" exactly when the lower-cased input has no letter or digit. */
  lemma SlugifyEmptyIff(input: string)
    ensures Slugify(input) == [] <==>
            forall i :: 0 <= i < |input| ==> !IsAlnum(LowerChar(input[i]))
  {
    var r := Slugify(input);
    SlugifyIsSlug(input);
    SlugifyKeepsAlnums(input);
    AlnumsEmptyIff(Lower(input));
    if r != [] {
      assert IsAlnum(r[0]);
      AlnumsEmptyIff(r);
    }
  }

  // ---------------------------------------------------------------------------
  // Idempotence

  /** On a string of `[a-z0-9-]` without "--", collapsing runs changes nothing. */
  lemma {:induction false} CollapseIsIdentity(t: string)
    requires AllSlugChars(t) && NoDoubleHyphen(t)
    ensures CollapseRuns(t) == t
    decreases |t|
  {
    if t != [] {
      SliceNoDouble(t, 1, |t|);
      CollapseIsIdentity(t[1..]);
      if !IsAlnum(t[0]) {
        assert t[0] == '-';
        assert |t| == 1 || IsAlnum(t[1]);
        assert SkipNonAlnum(t) == t[1..];
      }
      assert [t[0]] + t[1..] == t;
    }
  }

  /** A slug is left as it is by `slugify`. */
  lemma SlugifyFixesSlugs(t: string)
    requires IsSlug(t)
    ensures Slugify(t) == t
  {
    LowerOfSlugChars(t);
    if t != [] {
      assert IsAlnum(t[0]) && IsAlnum(t[|t| - 1]);
    }
    TrimOfTrimmed(t);
    CollapseIsIdentity(t);
    SqueezeIsIdentity(t);
  }

  /** `slugify(slugify(s)) == slugify(s)` */
  lemma SlugifyIdempotent(input: string)
    ensures Slugify(Slugify(input)) == Slugify(input)
  {
    SlugifyIsSlug(input);
    SlugifyFixesSlugs(Slugify(input));
  }

  // ---------------------------------------------------------------------------
  // randomDigits

  /** `randomDigits(length)`: a uniformly drawn integer in `[10^(length-1), 10^length - 1]`,
      printed in decimal. The draw is a nondeterministic choice in that range. For
      `length == 0` the bounds are 0.1 and 0 and the floor is always 0. */
  method RandomDigits(length: nat) returns (s: string)
    ensures length >= 1 ==> |s| == length && AllDigits(s) && s[0] != '0'
    ensures length >= 1 ==> Pow10(length - 1) <= DecimalValue(s) <= Pow10(length) - 1
    ensures length == 0 ==> s == "0"
  {
    if length == 0 {
      s := "0";
      return;
    }
    assert Pow10(length) == 10 * Pow10(length - 1);
    var v :| Pow10(length - 1) <= v <= Pow10(length) - 1;
    s := NatToString(v);
    NatToStringLength(v, length);
    DecimalRoundTrip(v);
  }
}
