/**
  The cache lifetime policy of the redirector's `HandleCacheAge`: which
  lifetime a backing-store path gets, and the `Cache-Control` value that
  carries it.
 */
module CachePolicy {
  import opened Wrappers
  import opened PyStr

  const ONE_HOUR: nat := 60 * 60
  const ONE_DAY: nat := ONE_HOUR * 24
  const ONE_WEEK: nat := ONE_DAY * 7

  /** The three lifetimes are the stated numbers of seconds and are strictly ordered. */
  lemma LifetimesOrdered()
    ensures ONE_HOUR == 3600 && ONE_DAY == 86400 && ONE_WEEK == 604800
    ensures ONE_DAY == 24 * ONE_HOUR && ONE_WEEK == 7 * ONE_DAY
    ensures 0 < ONE_HOUR < ONE_DAY < ONE_WEEK
  {
  }

  // ---------------------------------------------------------------------
  // The image pattern `(png|jpg)$` under Python's `re.search`
  // ---------------------------------------------------------------------

  /** Python's `$` (without MULTILINE) matches at position `k` when `k` is the
      end of the string, or when the only character left is a newline. */
  ghost predicate EndAnchorAt(s: string, k: nat) {
    k == |s| || (k + 1 == |s| && s[k] == '\n')
  }

  /** The pattern `(png|jpg)$` matches when it is started at position `i`. */
  ghost predicate ImagePatternAt(s: string, i: nat) {
    i + 3 <= |s| && (s[i..i + 3] == "png" || s[i..i + 3] == "jpg") && EndAnchorAt(s, i + 3)
  }

  /** `re.search(r'(png|jpg)$', s)` succeeds: the pattern matches at some position. */
  ghost predicate ImagePatternFound(s: string) {
    exists i: nat :: ImagePatternAt(s, i)
  }

  /** The executable reading of the search: one of the two extensions at the
      very end, or just before one final newline. No dot is required. */
  predicate HasImageSuffix(s: string): (b: bool)
    ensures b <==> ImagePatternFound(s)
  {
    ImageSuffixIsPatternSearch(s);
    EndsWith(s, "png") || EndsWith(s, "jpg") || EndsWith(s, "png\n") || EndsWith(s, "jpg\n")
  }

  /** The suffix test and the regular-expression search agree on every string. */
  lemma ImageSuffixIsPatternSearch(s: string)
    ensures EndsWith(s, "png") || EndsWith(s, "jpg") || EndsWith(s, "png\n") || EndsWith(s, "jpg\n")
        <==> ImagePatternFound(s)
  {
    if EndsWith(s, "png") || EndsWith(s, "jpg") {
      var i: nat := |s| - 3;
      assert s[i..i + 3] == s[|s| - 3..];
      assert ImagePatternAt(s, i);
    } else if EndsWith(s, "png\n") || EndsWith(s, "jpg\n") {
      var i: nat := |s| - 4;
      assert s[i..i + 3] == s[|s| - 4..][..3];
      assert ImagePatternAt(s, i);
    }
    if ImagePatternFound(s) {
      var i: nat :| ImagePatternAt(s, i);
      if i + 3 == |s| {
        assert s[|s| - 3..] == s[i..i + 3];
      } else {
        assert s[|s| - 4..] == s[i..i + 3] + "\n";
      }
    }
  }

  // ---------------------------------------------------------------------
  // The lifetime chosen for a path
  // ---------------------------------------------------------------------

  /** The lifetime, in seconds, that `HandleCacheAge` assigns to `path`:
      first match wins, images before icons before everything else. */
  function CacheAge(path: string): (age: nat)
    ensures age == ONE_DAY <==> ImagePatternFound(path)
    ensures age == ONE_WEEK <==> !ImagePatternFound(path) && EndsWith(path, ".ico")
    ensures age == ONE_HOUR <==> !ImagePatternFound(path) && !EndsWith(path, ".ico")
  {
    if HasImageSuffix(path) then ONE_DAY
    else if EndsWith(path, ".ico") then ONE_WEEK
    else ONE_HOUR
  }

  /** The age is always one of the three positive lifetimes: never zero, never unset. */
  lemma CacheAgeIsLifetime(path: string)
    ensures CacheAge(path) in {ONE_HOUR, ONE_DAY, ONE_WEEK}
    ensures CacheAge(path) >= ONE_HOUR > 0
  {
  }

  /** The lifetime depends only on the last four characters of the path. */
  lemma CacheAgeOfLongSuffix(prefix: string, rest: string)
    requires |rest| >= 4
    ensures CacheAge(prefix + rest) == CacheAge(rest)
  {
    EndsWithConcat(prefix, rest, "png");
    EndsWithConcat(prefix, rest, "jpg");
    EndsWithConcat(prefix, rest, "png\n");
    EndsWithConcat(prefix, rest, "jpg\n");
    EndsWithConcat(prefix, rest, ".ico");
  }

  /** None of the matched suffixes contains a `/`, so a part of the path that
      starts with `/` decides the lifetime on its own, whatever its length. */
  lemma CacheAgeAfterSlash(prefix: string, rest: string)
    requires |rest| > 0 && rest[0] == '/'
    ensures CacheAge(prefix + rest) == CacheAge(rest)
  {
    EndsWithConcatAfter(prefix, rest, "png", '/');
    EndsWithConcatAfter(prefix, rest, "jpg", '/');
    EndsWithConcatAfter(prefix, rest, "png\n", '/');
    EndsWithConcatAfter(prefix, rest, "jpg\n", '/');
    EndsWithConcatAfter(prefix, rest, ".ico", '/');
  }

  /** The lifetimes of a few typical paths, including an image name without a
      dot and an image name followed by a newline. */
  lemma CacheAgeExamples()
    ensures CacheAge("x.png") == CacheAge("x.jpg") == 86400
    ensures CacheAge("xpng") == CacheAge("x.png\n") == 86400
    ensures CacheAge("x.ico") == 604800
    ensures CacheAge("x.html") == CacheAge("x") == CacheAge("x.ico\n") == CacheAge("") == 3600
  {
  }

  // ---------------------------------------------------------------------
  // The Cache-Control value
  // ---------------------------------------------------------------------

  const CACHE_CONTROL: string := "Cache-Control"
  const MAX_AGE: string := "max-age="
  const S_MAXAGE: string := ",s-maxage="

  /** The two lifetimes a `Cache-Control` value of this form carries. */
  datatype CacheDirective = CacheDirective(maxAge: nat, sMaxAge: nat)

  /** `'max-age=' + str(a) + ',s-maxage=' + str(b)` */
  function Render(d: CacheDirective): (s: string)
    ensures Parse(s) == Some(d)
  {
    ParseRender(d);
    MAX_AGE + NatToDecimal(d.maxAge) + S_MAXAGE + NatToDecimal(d.sMaxAge)
  }

  /** Reads a value of the form `max-age=<digits>,s-maxage=<digits>` back into
      its two lifetimes; anything else is `None`. */
  function Parse(s: string): Option<CacheDirective> {
    if !StartsWith(s, MAX_AGE) then None
    else
      var rest := s[|MAX_AGE|..];
      var k := DigitPrefixLength(rest);
      var tail := rest[k..];
      if k == 0 || !StartsWith(tail, S_MAXAGE) then None
      else
        var second := tail[|S_MAXAGE|..];
        if second == [] || !IsDigits(second) then None
        else Some(CacheDirective(DecimalValue(rest[..k]), DecimalValue(second)))
  }

  /** Every rendered directive reads back as itself. */
  lemma ParseRender(d: CacheDirective)
    ensures Parse(MAX_AGE + NatToDecimal(d.maxAge) + S_MAXAGE + NatToDecimal(d.sMaxAge)) == Some(d)
  {
    var a, b := NatToDecimal(d.maxAge), NatToDecimal(d.sMaxAge);
    var s := MAX_AGE + a + S_MAXAGE + b;
    assert s[..|MAX_AGE|] == MAX_AGE;
    var rest := s[|MAX_AGE|..];
    assert rest == a + (S_MAXAGE + b);
    DigitPrefixOfDigits(a, S_MAXAGE + b);
    assert rest[..|a|] == a;
    var tail := rest[|a|..];
    assert tail == S_MAXAGE + b;
    assert tail[..|S_MAXAGE|] == S_MAXAGE;
    assert tail[|S_MAXAGE|..] == b;
    DecimalRoundTrip(d.maxAge);
    DecimalRoundTrip(d.sMaxAge);
  }

  /** The header value written for a lifetime: it reads back with `max-age`
      and `s-maxage` both equal to that lifetime. */
  function CacheControlValue(age: nat): (v: string)
    ensures Parse(v) == Some(CacheDirective(age, age))
  {
    Render(CacheDirective(age, age))
  }

  /** `str` of each of the three lifetimes. */
  lemma LifetimeDigits()
    ensures NatToDecimal(ONE_HOUR) == "3600"
    ensures NatToDecimal(ONE_DAY) == "86400"
    ensures NatToDecimal(ONE_WEEK) == "604800"
  {
    LifetimesOrdered();
    assert NatToDecimal(36) == "36";
    assert NatToDecimal(360) == "360";
    assert NatToDecimal(86) == "86";
    assert NatToDecimal(864) == "864";
    assert NatToDecimal(8640) == "8640";
    assert NatToDecimal(60) == "60";
    assert NatToDecimal(604) == "604";
    assert NatToDecimal(6048) == "6048";
    assert NatToDecimal(60480) == "60480";
  }

}
