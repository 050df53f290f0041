/** The per-item rules of the portfolio image generator: which prompt items are
    generated (`--only`, `--limit`), how often a failed request is retried and how long
    it waits, and where an image is cropped to the target aspect ratio. */
module ImagePipeline {
  import opened Wrappers
  import opened Strings
  import opened ImageArgs

  // ---------------------------------------------------------------------------
  // cropToAspect

  /** `Math.round(p / q)`: the nearest integer, halves rounded up. */
  function RoundDiv(p: nat, q: nat): (r: nat)
    requires q > 0
    ensures 2 * q * r <= 2 * p + q < 2 * q * r + 2 * q
  {
    (2 * p + q) / (2 * q)
  }

  /** The crop `cropToAspect` asks `sips` for, `None` when it leaves the image alone.
      The ratios are compared by cross-multiplication, which agrees with the source's
      floating-point comparison also when a side is 0 (an infinite or NaN ratio). */
  function Crop(current: Size, aspect: Option<Size>): (r: Option<Size>)
    ensures aspect.None? ==> r.None?
    ensures aspect.Some? && current.w * aspect.value.h == aspect.value.w * current.h ==> r.None?
    ensures r.Some? ==> r.value.w <= current.w && r.value.h <= current.h
    ensures r.Some? ==>
      || (r.value.w < current.w && r.value.h == current.h)
      || (r.value.w == current.w && r.value.h < current.h)
    ensures r.Some? && r.value.w < current.w ==>
      var a := aspect.value;
      && current.w * a.h > a.w * current.h
      && 2 * r.value.w * a.h <= 2 * current.h * a.w + a.h < 2 * r.value.w * a.h + 2 * a.h
    ensures r.Some? && r.value.h < current.h ==>
      var a := aspect.value;
      && current.w * a.h < a.w * current.h
      && 2 * r.value.h * a.w <= 2 * current.w * a.h + a.w < 2 * r.value.h * a.w + 2 * a.w
  {
    if aspect.None? then None
    else
      var w, h, aw, ah := current.w, current.h, aspect.value.w, aspect.value.h;
      if w * ah > aw * h then
        // The image is too wide: keep the height, cut the width.
        var cropW := CutSide(w, h, aw, ah);
        if cropW == w then None else Some(Size(cropW, h))
      else if w * ah < aw * h then
        // The image is too tall: keep the width, cut the height.
        var cropH := CutSide(h, w, ah, aw);
        if cropH == h then None else Some(Size(w, cropH))
      else None
  }

  /** `Math.round(h * aw / ah)`, the width of `aw:ah` at height `h`, for an image of
      width `w` wider than that. */
  function CutSide(w: nat, h: nat, aw: nat, ah: nat): (cw: nat)
    requires w * ah > aw * h
    ensures ah > 0 && cw <= w
    ensures 2 * cw * ah <= 2 * h * aw + ah < 2 * cw * ah + 2 * ah
  {
    PositiveFactor(w, ah);
    CropBelow(h * aw, ah, w);
    RoundDiv(h * aw, ah)
  }

  /** Rounding a quotient below `n` cannot pass `n`. */
  lemma {:induction false} CropBelow(p: nat, q: nat, n: nat)
    requires q > 0 && p < n * q
    ensures RoundDiv(p, q) <= n
  {
    var r := RoundDiv(p, q);
    assert 2 * q * r < 2 * q * (n + 1);
    MulCancel(2 * q, r, n + 1);
  }

  lemma {:induction false} PositiveFactor(a: nat, b: nat)
    requires a * b > 0
    ensures b > 0
  {
  }

  lemma {:induction false} MulCancel(q: nat, a: nat, b: nat)
    requires q * a < q * b
    ensures a < b
  {
  }

  /** An image already in the target ratio is not cropped. */
  lemma {:induction false} CropOfMatching(current: Size, aspect: Size, k: nat)
    requires current.w == k * aspect.w && current.h == k * aspect.h
    ensures Crop(current, Some(aspect)) == None
  {
    assert current.w * aspect.h == k * aspect.w * aspect.h;
    assert aspect.w * current.h == aspect.w * (k * aspect.h);
  }

  /** The default case: a 1536x1024 image cropped to 16:10 keeps its width and is cut
      to 960 rows. */
  lemma {:induction false} CropDefault()
    ensures Crop(Size(1536, 1024), Some(Size(16, 10))) == Some(Size(1536, 960))
  {
  }

  // ---------------------------------------------------------------------------
  // The retry loop of `main`

  function Pow2(k: nat): (r: nat)
    ensures r >= 1
  {
    if k == 0 then 1 else 2 * Pow2(k - 1)
  }

  const MaxAttempts: nat := 3

  /** The wait after failed attempt `attempt`: `800 * 2^(attempt - 1)` ms. */
  function Backoff(attempt: nat): nat
    requires attempt >= 1
  {
    800 * Pow2(attempt - 1)
  }

  lemma {:induction false} BackoffSchedule()
    ensures Backoff(1) == 800 && Backoff(2) == 1600 && Backoff(3) == 3200
  {
  }

  /** The waits of the first `n` failures add up to `800 * (2^n - 1)` ms. */
  lemma {:induction false} TotalWait(n: nat)
    ensures Total(n) == 800 * (Pow2(n) - 1)
  {
    if n > 0 {
      TotalWait(n - 1);
    }
  }

  function Total(n: nat): nat {
    if n == 0 then 0 else Total(n - 1) + Backoff(n)
  }

  /** Up to three attempts at generating one image; `attempt(k)` is the outcome of the
      `k`-th request, and `waits` the sleeps, in order. The loop stops at the first
      success, sleeps after every failure (after the third as well) and, when all three
      fail, passes on the last error. */
  method Generate<T, E>(attempt: nat -> Result<T, E>) returns (r: Result<T, E>, waits: seq<nat>)
    ensures |waits| <= MaxAttempts
    ensures forall j | 0 <= j < |waits| :: waits[j] == Backoff(j + 1) && attempt(j + 1).Err?
    ensures r.Ok? <==> |waits| < MaxAttempts
    ensures r.Ok? ==> r == attempt(|waits| + 1)
    ensures r.Err? ==> r == attempt(MaxAttempts)
  {
    var png: Option<T> := None;
    var lastErr: Option<E> := None;
    waits := [];
    for k := 1 to MaxAttempts + 1
      invariant png.None? && |waits| == k - 1
      invariant forall j | 0 <= j < |waits| :: waits[j] == Backoff(j + 1) && attempt(j + 1).Err?
      invariant k > 1 ==> attempt(k - 1).Err? && lastErr == Some(attempt(k - 1).error)
    {
      var outcome := attempt(k);
      if outcome.Ok? {
        png := Some(outcome.value);
        lastErr := None;
        break;
      }
      lastErr := Some(outcome.error);
      waits := waits + [Backoff(k)];
    }
    if png.Some? {
      r := Ok(png.value);
    } else {
      r := Err(lastErr.value);
    }
  }

  // ---------------------------------------------------------------------------
  // The `--only` and `--limit` filters

  /** A prompt item: the file to write and the prompt to send. */
  datatype Item = Item(filename: string, prompt: string)

  /** `items.filter(keep)`. */
  function Filter(items: seq<Item>, keep: Item -> bool): (r: seq<Item>)
    ensures |r| <= |items|
    ensures forall it :: it in r <==> it in items && keep(it)
  {
    if items == [] then []
    else
      var last := items[|items| - 1];
      Filter(items[..|items| - 1], keep) + (if keep(last) then [last] else [])
  }

  /** The filter keeps the order of the items. */
  lemma {:induction false} FilterAppend(a: seq<Item>, b: seq<Item>, keep: Item -> bool)
    ensures Filter(a + b, keep) == Filter(a, keep) + Filter(b, keep)
    decreases |b|
  {
    if b == [] {
      assert a + b == a;
    } else {
      assert (a + b)[..|a + b| - 1] == a + b[..|b| - 1];
      FilterAppend(a, b[..|b| - 1], keep);
    }
  }

  /** The items `--only` selects. `test` stands for `RegExp.prototype.test` of the
      regular expression when the pattern is one. */
  function Only(items: seq<Item>, only: Option<Pattern>, test: string -> bool): (r: seq<Item>)
    ensures only.None? ==> r == items
    ensures only.Some? && only.value.Prefix? ==>
      forall it :: it in r <==> it in items && StartsWith(it.filename, only.value.prefix)
    ensures only.Some? && only.value.Regex? ==>
      forall it :: it in r <==> it in items && test(it.filename)
  {
    match only
    case None => items
    case Some(Prefix(p)) => Filter(items, (it: Item) => StartsWith(it.filename, p))
    case Some(Regex(_, _)) => Filter(items, (it: Item) => test(it.filename))
  }

  /** `if (limit && Number.isFinite(limit) && limit > 0) items = items.slice(0, limit)`.
      `limit` is the number `Number(args.limit)`; `None` stands for `null`, `NaN` and the
      infinities, which all leave the items alone. */
  function Limit(items: seq<Item>, limit: Option<real>): (r: seq<Item>)
    ensures limit.None? || limit.value <= 0.0 ==> r == items
    ensures limit.Some? && limit.value > 0.0 ==>
      |r| == (if limit.value.Floor < |items| then limit.value.Floor else |items|)
    ensures |r| <= |items| && r == items[..|r|]
  {
    if limit.Some? && limit.value > 0.0 then
      var n := limit.value.Floor;
      if n < |items| then items[..n] else items
    else items
  }

  /** A limit below 1 selects nothing. */
  lemma {:induction false} LimitBelowOne(items: seq<Item>, limit: real)
    requires 0.0 < limit < 1.0
    ensures Limit(items, Some(limit)) == []
  {
  }
}
