/** Admin feedback moderation (server/controllers/adminController.js): the
    week-on-week growth figure of the dashboard, the filtered and paged
    feedback listing, the status edit and the bulk delete. */
module AdminController {
  import opened Common
  import opened Listing
  import opened FeedbackModel
  import opened Store

  // ---------------------------------------------------------------------
  // feedbackGrowth

  /** The growth percentage: 100 when last week had none and this week
      some, 0 when both had none, otherwise the percentage change rounded
      to the nearest integer, halves upwards as `Math.round` does. */
  function FeedbackGrowth(thisWeek: nat, prevWeek: nat): (g: int)
    ensures prevWeek == 0 ==> g == (if thisWeek > 0 then 100 else 0)
    ensures prevWeek > 0 ==> RoundsPercentage(thisWeek, prevWeek, g)
  {
    if prevWeek == 0 then (if thisWeek > 0 then 100 else 0)
    else (200 * (thisWeek - prevWeek) + prevWeek) / (2 * prevWeek)
  }

  /** `g` is within a half of the exact percentage `100 * (t - p) / p`,
      halves going up: `g - 1/2 <= 100 * (t - p) / p < g + 1/2`, scaled by
      `2 * p`. */
  predicate RoundsPercentage(t: nat, p: nat, g: int) {
    var d := 2 * p;
    d * g <= 200 * (t - p) + p < d * g + d
  }

  /** The rounded percentage is the only integer within a half of the exact
      one, it never falls below -100, and it is 0 for an unchanged count. */
  lemma GrowthBounds(thisWeek: nat, prevWeek: nat, g: int)
    requires prevWeek > 0 && RoundsPercentage(thisWeek, prevWeek, g)
    ensures g == FeedbackGrowth(thisWeek, prevWeek)
    ensures FeedbackGrowth(thisWeek, prevWeek) >= -100
    ensures thisWeek == prevWeek ==> FeedbackGrowth(thisWeek, prevWeek) == 0
  {
    var d, n := 2 * prevWeek, 200 * (thisWeek - prevWeek) + prevWeek;
    var h := FeedbackGrowth(thisWeek, prevWeek);
    FloorUnique(n, d, g, h);
    if h < -100 {
      MulMono(d, h + 1, -100);
    }
    if thisWeek == prevWeek {
      FloorUnique(n, d, h, 0);
    }
  }

  /** Only one integer `g` has `d * g <= n < d * g + d`. */
  lemma FloorUnique(n: int, d: int, g: int, h: int)
    requires d > 0 && d * g <= n < d * g + d && d * h <= n < d * h + d
    ensures g == h
  {
    if g < h {
      MulMono(d, g + 1, h);
    } else if h < g {
      MulMono(d, h + 1, g);
    }
  }

  lemma MulMono(d: int, a: int, b: int)
    requires d > 0 && a <= b
    ensures d * a <= d * b
  {
    assert d * b - d * a == d * (b - a);
  }

  // ---------------------------------------------------------------------
  // parseInt(s, 10)

  /** The longest run of digits at the start of `s`. */
  function DigitPrefix(s: string): (p: string)
    ensures p <= s && AllDigits(p)
    ensures |p| == |s| || !IsDigit(s[|p|])
  {
    if s == [] || !IsDigit(s[0]) then [] else [s[0]] + DigitPrefix(s[1..])
  }

  /** `parseInt(s, 10)`: leading white space skipped, an optional sign, then
      the longest run of digits; `None` stands for `NaN`. */
  function ParseInt(s: string): (r: Option<int>)
    ensures r.None? <==> DigitPrefix(SignFree(TrimStart(s))) == []
  {
    var t := TrimStart(s);
    var d := DigitPrefix(SignFree(t));
    if d == [] then None
    else
      var v: int := DigitsValue(d);
      Some(if t != [] && t[0] == '-' then -v else v)
  }

  /** The text after an optional leading sign. */
  function SignFree(t: string): (u: string)
    ensures u == t || (t != [] && (t[0] == '-' || t[0] == '+') && u == t[1..])
  {
    if t != [] && (t[0] == '-' || t[0] == '+') then t[1..] else t
  }

  /** `parseInt` reads back `String(n)`, also with a sign in front and with
      anything after it that does not start with a digit. */
  lemma ParseIntReadsBack(n: nat, tail: string)
    requires tail == [] || !IsDigit(tail[0])
    ensures ParseInt(NatToString(n) + tail) == Some(n)
    ensures ParseInt("-" + (NatToString(n) + tail)) == Some(-(n as int))
  {
    var d := NatToString(n);
    calc {
      ParseInt(d + tail);
    == { NatToStringDigits(n); ParseIntOfDigits(d, tail); }
      Some(DigitsValue(d) as int);
    == { NatToStringDigits(n); }
      Some(n as int);
    }
    calc {
      ParseInt("-" + (d + tail));
    == { NatToStringDigits(n); ParseIntOfDigits(d, tail); }
      Some(-(DigitsValue(d) as int));
    == { NatToStringDigits(n); }
      Some(-(n as int));
    }
  }

  lemma ParseIntOfDigits(d: string, tail: string)
    requires d != [] && AllDigits(d) && (tail == [] || !IsDigit(tail[0]))
    ensures ParseInt(d + tail) == Some(DigitsValue(d) as int)
    ensures ParseInt("-" + (d + tail)) == Some(-(DigitsValue(d) as int))
  {
    var s := d + tail;
    assert s[0] == d[0];
    DigitPrefixOf(d, tail);
    UnsignedDigits(s, d);
    NegatedDigits(s, d);
  }

  lemma UnsignedDigits(s: string, d: string)
    requires s != [] && IsDigit(s[0]) && d != [] && AllDigits(d) && DigitPrefix(s) == d
    ensures ParseInt(s) == Some(DigitsValue(d) as int)
  {
    StartsWithNonSpace(s);
    assert SignFree(s) == s;
  }

  lemma NegatedDigits(s: string, d: string)
    requires d != [] && AllDigits(d) && DigitPrefix(s) == d
    ensures ParseInt("-" + s) == Some(-(DigitsValue(d) as int))
  {
    var m := "-" + s;
    StartsWithNonSpace(m);
    assert SignFree(m) == s;
  }

  lemma StartsWithNonSpace(s: string)
    requires s != [] && (IsDigit(s[0]) || s[0] == '-')
    ensures TrimStart(s) == s
  {
  }

  lemma {:induction false} DigitPrefixOf(d: string, tail: string)
    requires AllDigits(d) && (tail == [] || !IsDigit(tail[0]))
    ensures DigitPrefix(d + tail) == d
  {
    if d != [] {
      assert (d + tail)[1..] == d[1..] + tail;
      DigitPrefixOf(d[1..], tail);
    }
  }

  /** `Math.min(Math.max(parseInt(limit, 10) || 20, 1), 100)`, where an
      absent `limit` is `'20'`. */
  function EffectiveLimit(limit: Option<string>): (n: int)
    ensures 1 <= n <= 100
    ensures var p := ParseInt(if limit.Some? then limit.value else "20");
      && (p.None? || p.value == 0 ==> n == 20)
      && (p.Some? && 1 <= p.value <= 100 ==> n == p.value)
      && (p.Some? && p.value > 100 ==> n == 100)
      && (p.Some? && p.value < 0 ==> n == 1)
  {
    var p := ParseInt(if limit.Some? then limit.value else "20");
    var v := if p.None? || p.value == 0 then 20 else p.value;
    if v < 1 then 1 else if v > 100 then 100 else v
  }

  /** `Math.max(parseInt(skip, 10) || 0, 0)`, where an absent `skip` is `'0'`. */
  function EffectiveSkip(skip: Option<string>): (n: nat)
    ensures var p := ParseInt(if skip.Some? then skip.value else "0");
      && (p.None? ==> n == 0)
      && (p.Some? ==> n == if p.value < 0 then 0 else p.value)
  {
    var p := ParseInt(if skip.Some? then skip.value else "0");
    if p.None? || p.value < 0 then 0 else p.value
  }

  /** Without parameters the listing shows the first twenty. */
  lemma DefaultPaging()
    ensures EffectiveLimit(None) == 20 && EffectiveSkip(None) == 0
  {
    DefaultParses("20", 20);
    DefaultParses("0", 0);
  }

  lemma DefaultParses(s: string, n: nat)
    requires s == NatToString(n) && n < 100
    ensures ParseInt(s) == Some(n)
  {
    ParseIntReadsBack(n, []);
    assert s + [] == s;
  }

  // ---------------------------------------------------------------------
  // getFilteredFeedback

  /** The query string. An absent status or keyword is `None`; the dates are
      the optional bounds the handler derives from `startDate` (the start of
      that day) and `endDate` (the end of that day). */
  datatype FeedbackQuery = FeedbackQuery(
    status: Option<string>,
    start: Option<nat>,
    end: Option<nat>,
    keyword: Option<string>,
    limit: Option<string>,
    skip: Option<string>)

  /** The status filter applies only for one of the five statuses; the
      trimmed keyword, when not blank, must occur in the name, e-mail or
      message, ignoring case; the date bounds are inclusive. */
  predicate FeedbackQueryAdmits(q: FeedbackQuery, f: Feedback) {
    && (q.status.None? || ParseFeedbackStatus(q.status.value).None? || f.status.Name() == q.status.value)
    && (q.keyword.None? || Trim(q.keyword.value) == "" ||
        var term := Trim(q.keyword.value);
        ContainsIgnoreCase(f.name, term) || ContainsIgnoreCase(f.email, term)
        || ContainsIgnoreCase(f.message, term))
    && (q.start.None? || f.createdAt >= q.start.value)
    && (q.end.None? || f.createdAt <= q.end.value)
  }

  /** `all`, or any text that is not a status, filters nothing. */
  lemma NonStatusIgnored(q: FeedbackQuery, s: string, f: Feedback)
    requires ParseFeedbackStatus(s).None?
    ensures FeedbackQueryAdmits(q.(status := Some(s)), f) == FeedbackQueryAdmits(q.(status := None), f)
  {
  }

  function Matching(feedbacks: map<nat, Feedback>, q: FeedbackQuery): (keys: set<nat>)
    ensures forall k :: k in keys <==> k in feedbacks && FeedbackQueryAdmits(q, feedbacks[k])
  {
    set k | k in feedbacks && FeedbackQueryAdmits(q, feedbacks[k])
  }

  datatype FeedbackPage = FeedbackPage(count: nat, total: nat, limit: nat, skip: nat, data: seq<Feedback>) {
    /** `data` is as long as the window of `limit` places that starts `skip`
        places into `total` records. */
    predicate Sized() {
      |data| == if skip >= total then 0 else Min(limit, total - skip)
    }
  }

  /** The page: `total` counts every admitted feedback; `data` holds at most
      `limit` of them, newest first, starting `skip` places in. */
  ghost function GetFilteredFeedback(feedbacks: map<nat, Feedback>, q: FeedbackQuery): (r: FeedbackPage)
    ensures r.total == |Matching(feedbacks, q)|
    ensures r.limit == EffectiveLimit(q.limit) && r.skip == EffectiveSkip(q.skip)
    ensures 1 <= r.limit <= 100 && r.count == |r.data| <= r.limit
    ensures r.Sized()
    ensures r.data == Page(FilteredNewest(feedbacks, q), r.skip, r.limit)
    ensures forall i :: 0 <= i < |r.data| ==> r.data[i] in feedbacks.Values && FeedbackQueryAdmits(q, r.data[i])
    ensures forall i, j :: 0 <= i < j < |r.data| ==> r.data[i].createdAt >= r.data[j].createdAt
  {
    var all := FilteredNewest(feedbacks, q);
    var limit, skip := EffectiveLimit(q.limit), EffectiveSkip(q.skip);
    PagedKeeps(feedbacks, q, all, limit, skip);
    Paged(all, limit, skip)
  }

  /** A page of admitted feedback, newest first, is admitted feedback,
      newest first. */
  lemma PagedKeeps(feedbacks: map<nat, Feedback>, q: FeedbackQuery, all: seq<Feedback>, limit: nat, skip: nat)
    requires forall i :: 0 <= i < |all| ==> all[i] in feedbacks.Values && FeedbackQueryAdmits(q, all[i])
    requires forall i, j :: 0 <= i < j < |all| ==> all[i].createdAt >= all[j].createdAt
    ensures var d := Paged(all, limit, skip).data;
      && (forall i :: 0 <= i < |d| ==> d[i] in feedbacks.Values && FeedbackQueryAdmits(q, d[i]))
      && (forall i, j :: 0 <= i < j < |d| ==> d[i].createdAt >= d[j].createdAt)
  {
  }

  /** `.skip(skip).limit(limit)` on `all`, with the count of the page and
      the total of `all`. */
  function Paged(all: seq<Feedback>, limit: nat, skip: nat): (r: FeedbackPage)
    ensures r.total == |all| && r.limit == limit && r.skip == skip && r.count == |r.data|
    ensures r.Sized() && r.data == Page(all, r.skip, r.limit)
    ensures forall i :: 0 <= i < |r.data| ==> skip + i < |all| && r.data[i] == all[skip + i]
  {
    var data := Page(all, skip, limit);
    FeedbackPage(|data|, |all|, limit, skip, data)
  }

  /** Every admitted feedback, newest first. */
  ghost function FilteredNewest(feedbacks: map<nat, Feedback>, q: FeedbackQuery): (all: seq<Feedback>)
    ensures |all| == |Matching(feedbacks, q)|
    ensures forall k :: k in Matching(feedbacks, q) ==> feedbacks[k] in all
    ensures forall i :: 0 <= i < |all| ==> all[i] in feedbacks.Values && FeedbackQueryAdmits(q, all[i])
    ensures forall i, j :: 0 <= i < j < |all| ==> all[i].createdAt >= all[j].createdAt
  {
    var keys := Matching(feedbacks, q);
    var all := NewestRecords(feedbacks, keys, FeedbackCreated);
    RecordsSatisfy(feedbacks, keys, all, (f: Feedback) => FeedbackQueryAdmits(q, f));
    all
  }

  /** Consecutive pages do not overlap and leave no gap: the records of the
      page at `skip` followed by those of the page after it are the records
      of one page twice as long. */
  lemma PagesTile<T>(items: seq<T>, skip: nat, limit: nat)
    ensures Page(items, skip, limit) + Page(items, skip + limit, limit) == Page(items, skip, 2 * limit)
  {
  }

  // ---------------------------------------------------------------------
  // updateFeedbackStatus

  /** `findByIdAndUpdate(id, { status, isVisible })`: no save hook runs. */
  function WithStatus(f: Feedback, s: FeedbackStatus): (g: Feedback)
    ensures g.status == s && g.isVisible == VisibleFor(s)
    ensures g.isVisible <==> !(s == Hidden || s == Removed)
    ensures g.(status := f.status, isVisible := f.isVisible) == f
  {
    f.(status := s, isVisible := VisibleFor(s))
  }

  method UpdateFeedbackStatus(db: Database, id: nat, status: Option<string>) returns (res: Response<Feedback>)
    requires db.Valid()
    modifies db
    ensures db.Valid()
    ensures db.users == old(db.users) && db.reports == old(db.reports)
    ensures db.auditLog == old(db.auditLog) && db.nextFeedbackId == old(db.nextFeedbackId)
    ensures (status.None? || ParseFeedbackStatus(status.value).None?) ==>
      res == Fail(400, "Invalid status", None) && unchanged(db)
    ensures (status.Some? && ParseFeedbackStatus(status.value).Some? && id !in old(db.feedbacks)) ==>
      res == Fail(404, "Feedback not found", None) && unchanged(db)
    ensures res.Ok? <==> status.Some? && ParseFeedbackStatus(status.value).Some? && id in old(db.feedbacks)
    ensures res.Ok? ==>
      && res == Ok(200, WithStatus(old(db.feedbacks)[id], ParseFeedbackStatus(status.value).value))
      && db.feedbacks == old(db.feedbacks)[id := res.data]
  {
    if status.None? || ParseFeedbackStatus(status.value).None? {
      return Fail(400, "Invalid status", None);
    }
    if id !in db.feedbacks {
      return Fail(404, "Feedback not found", None);
    }
    var g := WithStatus(db.feedbacks[id], ParseFeedbackStatus(status.value).value);
    UpdateFeedbackSound(db.feedbacks, db.nextFeedbackId, id, g);
    db.feedbacks := db.feedbacks[id := g];
    res := Ok(200, g);
  }

  // ---------------------------------------------------------------------
  // bulkDeleteFeedbacks

  /** The feedback left once every listed id is deleted. */
  function FeedbacksNotIn(feedbacks: map<nat, Feedback>, ids: seq<nat>): (r: map<nat, Feedback>)
    ensures forall k :: k in r <==> k in feedbacks && k !in ids
    ensures forall k :: k in r ==> r[k] == feedbacks[k]
  {
    map k | k in feedbacks && k !in ids :: feedbacks[k]
  }

  /** The listed ids that name a stored feedback. */
  function Hits(feedbacks: map<nat, Feedback>, ids: seq<nat>): set<nat> {
    set k | k in feedbacks && k in ids
  }

  /** The reported count is exactly what disappeared. */
  lemma BulkDeleteCount(feedbacks: map<nat, Feedback>, ids: seq<nat>)
    ensures |FeedbacksNotIn(feedbacks, ids)| + |Hits(feedbacks, ids)| == |feedbacks|
    ensures |Hits(feedbacks, ids)| <= |ids|
  {
    var left := FeedbacksNotIn(feedbacks, ids).Keys;
    var hit := Hits(feedbacks, ids);
    assert left * hit == {};
    assert left + hit == feedbacks.Keys;
    SetOfSeqCard(ids);
    SubsetCardinality(hit, set k | k in ids);
  }

  lemma {:induction false} SetOfSeqCard<T>(s: seq<T>)
    ensures |set x | x in s| <= |s|
  {
    if s != [] {
      SetOfSeqCard(s[1..]);
      assert (set x | x in s) == {s[0]} + (set x | x in s[1..]);
    }
  }

  /** The request body's `ids`: `None` when it is not an array. */
  method BulkDeleteFeedbacks(db: Database, ids: Option<seq<nat>>) returns (res: Response<nat>)
    requires db.Valid()
    modifies db
    ensures db.Valid()
    ensures db.users == old(db.users) && db.reports == old(db.reports)
    ensures db.auditLog == old(db.auditLog) && db.nextFeedbackId == old(db.nextFeedbackId)
    ensures (ids.None? || ids.value == []) <==> res == Fail(400, "ids array is required", None)
    ensures (ids.None? || ids.value == []) ==> unchanged(db)
    ensures res.Ok? <==> ids.Some? && ids.value != []
    ensures res.Ok? ==>
      && res == Ok(200, |Hits(old(db.feedbacks), ids.value)|)
      && db.feedbacks == FeedbacksNotIn(old(db.feedbacks), ids.value)
  {
    if ids.None? || ids.value == [] {
      return Fail(400, "ids array is required", None);
    }
    var left := FeedbacksNotIn(db.feedbacks, ids.value);
    var count := |Hits(db.feedbacks, ids.value)|;
    DeleteSound(db.users, db.users, db.feedbacks, left, db.reports, db.reports, db.auditLog, db.nextFeedbackId);
    db.feedbacks := left;
    res := Ok(200, count);
  }
}
