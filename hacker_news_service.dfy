/**
 * The Hacker News service: the first `limit` ranked story ids, their items,
 * the stories that link somewhere, and a relative publication date.
 */
module HackerNewsService {

  import opened Wrappers
  import Text
  import Json
  import Http
  import Seqs

  /** An item of the API (`byUser` is its `by` field); `url` is absent on "Ask HN" and "Show HN" posts. */
  datatype HNItem = HNItem(id: int, title: string, url: Option<string>, score: int, byUser: string, time: int, descendants: int)

  /** A story as the dashboard shows it; `publishedAtMs` is the epoch time in milliseconds. */
  datatype HNStory = HNStory(title: string, url: string, score: int, author: string, comments: int, publishedAtMs: int)

  /** One request to the API: the fetch rejected, or a status line with the outcome of `response.json()`. */
  datatype Reply<T> = Unreachable(thrown: Http.Thrown) | Answer(status: int, statusText: string, parsed: Result<T>)

  /** A value, or what was thrown on the way to it. */
  datatype Attempt<T> = Threw(thrown: Http.Thrown) | Loaded(value: T)

  const DefaultLimit := 5

  function ApiErrorMessage(status: int, statusText: string): string
  {
    "Erreur API: " + Text.IntToString(status) + " " + statusText
  }

  /** A non-OK status throws with the status line; a body that is not JSON throws its parse error. */
  function Load<T>(r: Reply<T>): (a: Attempt<T>)
    ensures a.Loaded? <==> r.Answer? && Http.IsOk(r.status) && r.parsed.Success?
    ensures a.Loaded? ==> a.value == r.parsed.value
    ensures r.Answer? && !Http.IsOk(r.status) ==> a == Threw(Http.ErrorObject(ApiErrorMessage(r.status, r.statusText)))
  {
    match r
    case Unreachable(t) => Threw(t)
    case Answer(status, statusText, parsed) =>
      if !Http.IsOk(status) then Threw(Http.ErrorObject(ApiErrorMessage(status, statusText)))
      else match parsed
        case Failure(m) => Threw(Http.ErrorObject(m))
        case Success(v) => Loaded(v)
  }

  /** The end index `slice(0, end)` uses on a list of `len` elements. */
  function SliceEnd(len: nat, end: int): (r: nat)
    ensures r <= len
    ensures end >= 0 ==> r == if end < len then end else len
    ensures end < 0 ==> r == if len + end > 0 then len + end else 0
  {
    if end < 0 then (if len + end > 0 then len + end else 0)
    else if end < len then end else len
  }

  /**
   * `Promise.all` over the item requests: the items, or the first failure
   * in list order. `null` stands for a deleted item.
   */
  function LoadAll(replies: seq<Reply<Option<HNItem>>>): (r: Attempt<seq<Option<HNItem>>>)
    ensures r.Loaded? <==> forall i :: 0 <= i < |replies| ==> Load(replies[i]).Loaded?
    ensures r.Loaded? ==> |r.value| == |replies| && forall i :: 0 <= i < |replies| ==> r.value[i] == Load(replies[i]).value
    ensures r.Threw? ==> exists i :: 0 <= i < |replies| && Load(replies[i]) == Threw(r.thrown)
  {
    if replies == [] then Loaded([])
    else match Load(replies[0])
      case Threw(t) => Threw(t)
      case Loaded(item) =>
        match LoadAll(replies[1..])
        case Threw(t) =>
          assert exists i :: 1 <= i < |replies| && Load(replies[i]) == Threw(t) by {
            var i :| 0 <= i < |replies[1..]| && Load(replies[1..][i]) == Threw(t);
            assert replies[i + 1] == replies[1..][i];
          }
          Threw(t)
        case Loaded(rest) => Loaded([item] + rest)
  }

  /** The items, if none is `null`. */
  function NoneDeleted(items: seq<Option<HNItem>>): (r: Option<seq<HNItem>>)
    ensures r.Some? <==> forall i :: 0 <= i < |items| ==> items[i].Some?
    ensures r.Some? ==> |r.value| == |items| && forall i :: 0 <= i < |items| ==> r.value[i] == items[i].value
  {
    if items == [] then Some([])
    else if items[0].None? then None
    else match NoneDeleted(items[1..])
      case None => None
      case Some(rest) => Some([items[0].value] + rest)
  }

  /** `story.url` is truthy. */
  predicate HasUrl(item: HNItem) { item.url.Some? && item.url.value != [] }

  function ToStory(item: HNItem): HNStory
  {
    HNStory(item.title, if item.url.Some? then item.url.value else "", item.score, item.byUser, item.descendants, item.time * 1000)
  }

  /** `storyIds.slice(0, limit)`. */
  function Requested(all: seq<int>, limit: int): (r: seq<int>)
    ensures |r| == SliceEnd(|all|, limit)
    ensures forall i :: 0 <= i < |r| ==> r[i] == all[i]
  {
    all[..SliceEnd(|all|, limit)]
  }

  /** `Promise.all(requested.map(id => this.getItem(id)))`. */
  function LoadItems(requested: seq<int>, fetchItem: int -> Reply<Option<HNItem>>): (r: Attempt<seq<Option<HNItem>>>)
    ensures r.Loaded? ==> |r.value| == |requested|
    ensures r.Loaded? ==> forall i :: 0 <= i < |requested| ==>
              Load(fetchItem(requested[i])).Loaded? && r.value[i] == Load(fetchItem(requested[i])).value
    ensures (forall i :: 0 <= i < |requested| ==> Load(fetchItem(requested[i])).Loaded?) ==> r.Loaded?
  {
    var replies := Seqs.Map(requested, fetchItem);
    assert forall i :: 0 <= i < |requested| ==> replies[i] == fetchItem(requested[i]);
    LoadAll(replies)
  }

  /** The filter on a truthy `url` and the map to the displayed story. */
  function Stories(present: seq<HNItem>): (r: seq<HNStory>)
    ensures |r| == |Seqs.Filter(present, HasUrl)| <= |present|
    ensures forall k :: 0 <= k < |r| ==> r[k] == ToStory(Seqs.Filter(present, HasUrl)[k]) && r[k].url != []
  {
    Seqs.Map(Seqs.Filter(present, HasUrl), ToStory)
  }

  /** Every requested item loads and none of them is `null`. */
  predicate AllPresent(all: seq<int>, limit: int, fetchItem: int -> Reply<Option<HNItem>>)
  {
    forall i :: 0 <= i < SliceEnd(|all|, limit) ==> Load(fetchItem(all[i])).Loaded? && Load(fetchItem(all[i])).value.Some?
  }

  /** The requested items, in ranking order, when they are all present. */
  function PresentItems(all: seq<int>, limit: int, fetchItem: int -> Reply<Option<HNItem>>): (r: seq<HNItem>)
    requires AllPresent(all, limit, fetchItem)
    ensures |r| == SliceEnd(|all|, limit)
    ensures forall i :: 0 <= i < |r| ==> Load(fetchItem(all[i])).value == Some(r[i])
  {
    seq(SliceEnd(|all|, limit), i requires 0 <= i < SliceEnd(|all|, limit) && AllPresent(all, limit, fetchItem) =>
      Load(fetchItem(all[i])).value.value)
  }

  /** The item requests succeed without a `null` exactly when every requested item is present, and then give those items. */
  lemma LoadedItemsArePresent(all: seq<int>, limit: int, fetchItem: int -> Reply<Option<HNItem>>)
    ensures var loaded := LoadItems(Requested(all, limit), fetchItem);
            AllPresent(all, limit, fetchItem) <==> loaded.Loaded? && NoneDeleted(loaded.value).Some?
    ensures var loaded := LoadItems(Requested(all, limit), fetchItem);
            AllPresent(all, limit, fetchItem) ==> NoneDeleted(loaded.value).value == PresentItems(all, limit, fetchItem)
  {
    var requested := Requested(all, limit);
    var loaded := LoadItems(requested, fetchItem);
    if AllPresent(all, limit, fetchItem) {
      assert forall i :: 0 <= i < |requested| ==> Load(fetchItem(requested[i])).Loaded? by {
        forall i | 0 <= i < |requested| ensures Load(fetchItem(requested[i])).Loaded? {
          assert requested[i] == all[i];
        }
      }
      assert NoneDeleted(loaded.value).Some? by {
        forall i | 0 <= i < |loaded.value| ensures loaded.value[i].Some? {
          assert requested[i] == all[i];
        }
      }
      var present := NoneDeleted(loaded.value).value;
      var expected := PresentItems(all, limit, fetchItem);
      forall i | 0 <= i < |present| ensures present[i] == expected[i] {
        assert requested[i] == all[i];
      }
      assert present == expected;
    }
    if loaded.Loaded? && NoneDeleted(loaded.value).Some? {
      forall i | 0 <= i < SliceEnd(|all|, limit)
        ensures Load(fetchItem(all[i])).Loaded? && Load(fetchItem(all[i])).value.Some?
      {
        assert requested[i] == all[i];
        assert loaded.value[i].Some?;
      }
    }
  }

  /**
   * `getTopStories`: `ids` is the ranked id list request, `fetchItem` the
   * item request for an id. Every failure is rethrown.
   */
  function GetTopStories(ids: Reply<seq<int>>, limit: int, fetchItem: int -> Reply<Option<HNItem>>): (r: Attempt<seq<HNStory>>)
    ensures Load(ids).Threw? ==> r == Threw(Load(ids).thrown)
    ensures r.Loaded? <==> Load(ids).Loaded? && AllPresent(Load(ids).value, limit, fetchItem)
    ensures r.Loaded? ==> r.value == Stories(PresentItems(Load(ids).value, limit, fetchItem))
  {
    match Load(ids)
    case Threw(t) => Threw(t)
    case Loaded(all) =>
      var requested := Requested(all, limit);
      LoadedItemsArePresent(all, limit, fetchItem);
      match LoadItems(requested, fetchItem)
      case Threw(t) => Threw(t)
      case Loaded(items) =>
        match NoneDeleted(items)
        case None => Threw(Http.ErrorObject(Json.NullReadMessage("url")))
        case Some(present) => Loaded(Stories(present))
  }

  /**
   * What is shown is the linked requested stories, in ranking order: at most
   * the requested number, each with a url, and each the story of the item
   * loaded for a requested id, no earlier in the ranking than its place.
   */
  lemma ShownInRankingOrder(ids: Reply<seq<int>>, limit: int, fetchItem: int -> Reply<Option<HNItem>>)
    requires GetTopStories(ids, limit, fetchItem).Loaded?
    ensures var shown := GetTopStories(ids, limit, fetchItem).value;
            |shown| <= SliceEnd(|Load(ids).value|, limit) &&
            forall k :: 0 <= k < |shown| ==>
              (shown[k].url != [] &&
               exists i :: k <= i < SliceEnd(|Load(ids).value|, limit) && ShownFrom(shown[k], fetchItem(Load(ids).value[i])))
  {
    var all := Load(ids).value;
    var present := PresentItems(all, limit, fetchItem);
    var linked := Seqs.Filter(present, HasUrl);
    var shown := GetTopStories(ids, limit, fetchItem).value;
    forall k | 0 <= k < |shown|
      ensures exists i :: k <= i < |present| && ShownFrom(shown[k], fetchItem(all[i]))
    {
      var i := SubsequenceIndex(linked, present, k);
      assert ShownFrom(shown[k], fetchItem(all[i]));
    }
  }

  /** Every requested story with a url is shown. */
  lemma LinkedStoriesAreShown(ids: Reply<seq<int>>, limit: int, fetchItem: int -> Reply<Option<HNItem>>, i: nat)
    requires GetTopStories(ids, limit, fetchItem).Loaded?
    requires i < SliceEnd(|Load(ids).value|, limit)
    requires HasUrl(Load(fetchItem(Load(ids).value[i])).value.value)
    ensures ToStory(Load(fetchItem(Load(ids).value[i])).value.value) in GetTopStories(ids, limit, fetchItem).value
  {
    var present := PresentItems(Load(ids).value, limit, fetchItem);
    var linked := Seqs.Filter(present, HasUrl);
    assert present[i] in linked;
    var j :| 0 <= j < |linked| && linked[j] == present[i];
    assert GetTopStories(ids, limit, fetchItem).value[j] == ToStory(present[i]);
  }

  /** The element at `k` of a subsequence sits at some position `i >= k` of the sequence. */
  lemma {:induction false} SubsequenceIndex<T>(r: seq<T>, s: seq<T>, k: nat) returns (i: nat)
    requires Seqs.IsSubsequence(r, s) && k < |r|
    ensures k <= i < |s| && s[i] == r[k]
    decreases |s|
  {
    assert s != [];
    if r[0] == s[0] {
      if k == 0 {
        i := 0;
      } else {
        var j := SubsequenceIndex(r[1..], s[1..], k - 1);
        i := j + 1;
      }
    } else {
      var j := SubsequenceIndex(r, s[1..], k);
      i := j + 1;
    }
  }

  /** `story` is the displayed form of the item `reply` loaded. */
  predicate ShownFrom(story: HNStory, reply: Reply<Option<HNItem>>)
  {
    Load(reply).Loaded? && Load(reply).value.Some? && story == ToStory(Load(reply).value.value)
  }

  /** A deleted story among the requested ones makes the whole call throw. */
  lemma DeletedStoryThrows(all: seq<int>, limit: int, fetchItem: int -> Reply<Option<HNItem>>, i: nat)
    requires i < SliceEnd(|all|, limit)
    requires forall j :: 0 <= j < SliceEnd(|all|, limit) ==> Load(fetchItem(all[j])).Loaded?
    requires Load(fetchItem(all[i])).value.None?
    ensures GetTopStories(Answer(200, "OK", Success(all)), limit, fetchItem) ==
              Threw(Http.ErrorObject(Json.NullReadMessage("url")))
  {
    var requested := Requested(all, limit);
    assert requested[i] == all[i];
  }

  /** A limit of zero or less than minus the list length asks for nothing and yields no story. */
  lemma NothingRequested(all: seq<int>, limit: int, fetchItem: int -> Reply<Option<HNItem>>)
    requires limit == 0 || limit <= -|all|
    ensures GetTopStories(Answer(200, "OK", Success(all)), limit, fetchItem) == Loaded([])
  {
  }

  /** The call without a limit asks for the first five ids, or all of them when there are fewer. */
  lemma DefaultCallRequestsFive(all: seq<int>)
    ensures Requested(all, DefaultLimit) == if |all| < 5 then all else all[..5]
  {
  }

  /** A negative limit drops that many ids from the end, as `slice` does. */
  lemma NegativeLimitDropsFromEnd(len: nat, limit: int)
    requires 0 - len < limit < 0
    ensures SliceEnd(len, limit) == len + limit
  {
  }

  // ------------------------------------------------------- publication date

  const MinuteMs := 60000
  const HourMs := 3600000
  const DayMs := 86400000

  /**
   * `formatPublishDate` at time `nowMs` for a story published at `dateMs`;
   * `localeDate` is the `fr-FR` day-and-month rendering of the date.
   */
  function FormatPublishDate(nowMs: int, dateMs: int, localeDate: string): (r: string)
    ensures nowMs - dateMs < HourMs ==> r == "Il y a " + Text.IntToString((nowMs - dateMs) / MinuteMs) + " min"
    ensures HourMs <= nowMs - dateMs < DayMs ==> r == "Il y a " + Text.IntToString((nowMs - dateMs) / HourMs) + "h"
    ensures DayMs <= nowMs - dateMs < 2 * DayMs ==> r == "Hier"
    ensures 2 * DayMs <= nowMs - dateMs ==> r == localeDate
  {
    var diffMs := nowMs - dateMs;
    var diffMins := diffMs / MinuteMs;
    var diffHours := diffMs / HourMs;
    var diffDays := diffMs / DayMs;
    if diffMins < 60 then "Il y a " + Text.IntToString(diffMins) + " min"
    else if diffHours < 24 then "Il y a " + Text.IntToString(diffHours) + "h"
    else if diffDays == 1 then "Hier"
    else localeDate
  }

  /** Within the hour the minute count is 0 to 59, and within the day the hour count is 1 to 23. */
  lemma CountsInRange(diffMs: int)
    ensures 0 <= diffMs < HourMs ==> 0 <= diffMs / MinuteMs <= 59
    ensures HourMs <= diffMs < DayMs ==> 1 <= diffMs / HourMs <= 23
  {
  }

  /** A date in the future counts as minutes ago, with a negative count. */
  lemma FutureDateIsMinutesAgo(nowMs: int, dateMs: int, localeDate: string)
    requires dateMs > nowMs
    ensures FormatPublishDate(nowMs, dateMs, localeDate) == "Il y a " + Text.IntToString((nowMs - dateMs) / MinuteMs) + " min"
    ensures (nowMs - dateMs) / MinuteMs < 0
  {
  }
}
