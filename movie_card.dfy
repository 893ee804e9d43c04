/**
 * The two pieces of logic in the movie card: the runtime label (hours and
 * minutes from a number of minutes) and the rule that shows at most two
 * genre badges followed by a `+N` badge for the rest.
 */
module MovieCard {
  import opened Js
  import opened Types

  // ---------------------------------------------------------------------------
  // Runtime label
  // ---------------------------------------------------------------------------

  /** JavaScript's `m % 60`: the remainder takes the sign of `m`. Dafny's own
      `%` is Euclidean, so the negative case is written out. */
  function JsRem60(m: int): (r: int)
    ensures m >= 0 ==> 0 <= r < 60
    ensures m < 0 ==> -60 < r <= 0
    ensures (m - r) % 60 == 0
  {
    if m >= 0 then m % 60 else -((-m) % 60)
  }

  /** `Math.floor(m / 60)`, the largest `h` with `60 * h <= m`. For a positive
      divisor Dafny's `/` already rounds down. */
  function Hours(m: int): (h: int)
    ensures 60 * h <= m < 60 * h + 60
  {
    m / 60
  }

  /** For a non-negative runtime the label's two numbers split it exactly. */
  lemma RuntimeSplit(m: int)
    requires m >= 0
    ensures Hours(m) * 60 + JsRem60(m) == m
    ensures 0 <= JsRem60(m) < 60
    ensures Hours(m) >= 0
  {
  }

  /** `formatRuntime(m)`: `"{h}h {r}m"` when there is at least one full hour,
      `"{r}m"` otherwise. */
  function FormatRuntime(m: int): (s: string)
    ensures Hours(m) > 0 ==> s == IntToString(Hours(m)) + "h " + IntToString(JsRem60(m)) + "m"
    ensures Hours(m) <= 0 ==> s == IntToString(JsRem60(m)) + "m"
  {
    var hours := Hours(m);
    var remaining := JsRem60(m);
    if hours > 0 then IntToString(hours) + "h " + IntToString(remaining) + "m"
    else IntToString(remaining) + "m"
  }

  /** What `{movie.runtime && (...)}` puts in the card: the runtime line for
      a truthy runtime; for 0 the expression's value is the number 0 itself,
      which React renders as the text "0". */
  datatype RuntimeSlot = RuntimeLine(text: string) | BareNumber(text: string)

  function RuntimeLabel(runtime: int): (slot: RuntimeSlot)
    ensures slot.BareNumber? <==> runtime == 0
    ensures slot.BareNumber? ==> slot.text == "0"
    ensures slot.RuntimeLine? ==> slot.text == FormatRuntime(runtime)
  {
    if runtime == 0 then BareNumber(IntToString(0)) else RuntimeLine(FormatRuntime(runtime))
  }

  /** Index of the first `c` in `s`, or -1. */
  function IndexOf(s: string, c: char): (i: int)
    ensures -1 <= i < |s|
    ensures i >= 0 ==> s[i] == c && c !in s[..i]
    ensures i == -1 <==> c !in s
  {
    if s == [] then -1
    else if s[0] == c then 0
    else
      var k := IndexOf(s[1..], c);
      if k == -1 then -1
      else
        assert s[..k + 1] == [s[0]] + s[1..][..k];
        k + 1
  }

  /** Reads a label back as minutes: digits and `m`, or digits, `h `, digits
      and `m`. Anything else is not a label. */
  function ParseRuntime(s: string): (r: Option<nat>)
  {
    if |s| < 2 || s[|s| - 1] != 'm' then None
    else ParseLabelBody(s[..|s| - 1])
  }

  /** A label without its final `m`. */
  function ParseLabelBody(body: string): Option<nat> {
    var k := IndexOf(body, 'h');
    if k < 0 then
      if AllDigits(body) then Some(DigitsValue(body)) else None
    else
      var hs := body[..k];
      var rest := body[k + 1..];
      if hs != [] && AllDigits(hs) && |rest| >= 2 && rest[0] == ' ' && AllDigits(rest[1..])
      then Some(DigitsValue(hs) * 60 + DigitsValue(rest[1..]))
      else None
  }

  /** A string of digits has no `h` in it. */
  lemma DigitsHaveNoH(s: string)
    requires AllDigits(s)
    ensures 'h' !in s
  {
  }

  /** The first `c` of `pre + [c] + post` is right after `pre` when `pre` has none. */
  lemma IndexOfAfter(pre: string, c: char, post: string)
    requires c !in pre
    ensures IndexOf(pre + [c] + post, c) == |pre|
  {
    var s := pre + [c] + post;
    assert s[|pre|] == c;
  }

  /** A minutes-only label reads back as its digits' value. */
  lemma ParseMinutesLabel(rs: string)
    requires rs != [] && AllDigits(rs)
    ensures ParseRuntime(rs + "m") == Some(DigitsValue(rs))
  {
    var s := rs + "m";
    assert s[..|s| - 1] == rs;
    DigitsHaveNoH(rs);
  }

  /** A body whose first `h` is at `k` reads as the digits before it times
      sixty plus the digits after the space that follows it. */
  lemma ParseBodyAt(body: string, k: nat, hs: string, rs: string)
    requires k < |body| && IndexOf(body, 'h') == k
    requires body[..k] == hs && body[k + 1..] == [' '] + rs
    requires hs != [] && AllDigits(hs)
    requires rs != [] && AllDigits(rs)
    ensures ParseLabelBody(body) == Some(DigitsValue(hs) * 60 + DigitsValue(rs))
  {
    var rest := body[k + 1..];
    assert rest[1..] == rs;
  }

  /** The body of an hours-and-minutes label. */
  lemma ParseHoursBody(hs: string, rs: string)
    requires hs != [] && AllDigits(hs)
    requires rs != [] && AllDigits(rs)
    ensures ParseLabelBody(hs + ['h'] + ([' '] + rs)) == Some(DigitsValue(hs) * 60 + DigitsValue(rs))
  {
    DigitsHaveNoH(hs);
    var post := [' '] + rs;
    var body := hs + ['h'] + post;
    IndexOfAfter(hs, 'h', post);
    assert body[..|hs|] == hs;
    assert body[|hs| + 1..] == post;
    ParseBodyAt(body, |hs|, hs, rs);
  }

  /** A label is read by reading its body once the final `m` is dropped. */
  lemma ParseDropsFinalM(body: string)
    requires body != []
    ensures ParseRuntime(body + "m") == ParseLabelBody(body)
  {
    var s := body + "m";
    assert s[..|s| - 1] == body;
  }

  /** An hours-and-minutes label reads back as hours times sixty plus minutes. */
  lemma ParseHoursLabel(hs: string, rs: string)
    requires hs != [] && AllDigits(hs)
    requires rs != [] && AllDigits(rs)
    ensures ParseRuntime(hs + "h " + rs + "m") == Some(DigitsValue(hs) * 60 + DigitsValue(rs))
  {
    var body := hs + ['h'] + ([' '] + rs);
    assert hs + "h " + rs + "m" == body + "m";
    ParseDropsFinalM(body);
    ParseHoursBody(hs, rs);
  }

  /** Every non-negative runtime's label reads back as that runtime. */
  lemma FormatRuntimeRoundTrip(m: nat)
    ensures ParseRuntime(FormatRuntime(m)) == Some(m)
  {
    var h := Hours(m);
    var r := JsRem60(m);
    RuntimeSplit(m);
    NatToStringRoundTrip(r);
    if h > 0 {
      NatToStringRoundTrip(h);
      assert FormatRuntime(m) == NatToString(h) + "h " + NatToString(r) + "m";
      ParseHoursLabel(NatToString(h), NatToString(r));
    } else {
      assert FormatRuntime(m) == NatToString(r) + "m";
      ParseMinutesLabel(NatToString(r));
    }
  }

  /** Distinct non-negative runtimes get distinct labels. */
  lemma FormatRuntimeInjective(m: nat, n: nat)
    requires FormatRuntime(m) == FormatRuntime(n)
    ensures m == n
  {
    FormatRuntimeRoundTrip(m);
    FormatRuntimeRoundTrip(n);
  }

  // ---------------------------------------------------------------------------
  // Genre badges
  // ---------------------------------------------------------------------------

  /** The genre block: the badges shown, and the count on the `+N` badge when
      there is one. */
  datatype Badges = Badges(shown: seq<Genre>, overflow: Option<nat>)

  const MaxBadges := 2

  /** The block is rendered only when `showGenres` is set and the movie has a
      non-empty genre list; it shows the first two genres and, when there are
      more than two, a `+N` badge counting the rest. `showGenres` is the
      component's prop, which is `true` when the caller leaves it out. */
  function GenreBadges(showGenres: bool, genres: Option<seq<Genre>>): (b: Option<Badges>)
    ensures b.Some? <==> showGenres && genres.Some? && |genres.value| > 0
    ensures b.Some? ==>
      && |b.value.shown| == (if |genres.value| < MaxBadges then |genres.value| else MaxBadges)
      && b.value.shown <= genres.value
      && (b.value.overflow.Some? <==> |genres.value| > MaxBadges)
      && (b.value.overflow.Some? ==> b.value.overflow.value == |genres.value| - MaxBadges)
  {
    if !showGenres || genres.None? || |genres.value| == 0 then None
    else
      var gs := genres.value;
      var shown := if |gs| < MaxBadges then gs else gs[..MaxBadges];
      Some(Badges(shown, if |gs| > MaxBadges then Some(|gs| - MaxBadges) else None))
  }

  /** Shown badges plus the `+N` count account for every genre exactly once:
      the genres not shown are exactly the ones counted. */
  lemma BadgesAccountForAll(showGenres: bool, genres: seq<Genre>)
    requires showGenres && |genres| > 0
    ensures var b := GenreBadges(showGenres, Some(genres)).value;
      && |b.shown| + b.overflow.GetOr(0) == |genres|
      && b.shown + genres[|b.shown|..] == genres
  {
  }
}
