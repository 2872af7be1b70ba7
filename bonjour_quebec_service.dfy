/**
 * The Bonjour Québec events service: a search form posted to the local
 * relay route, the HTML fragment dug out of the JSON answer (directly, from
 * an `insert` command, or from a JSON document wrapped in a `<textarea>`),
 * the total count read from the page, and the clean-up of date texts.
 */
module BonjourQuebecService {

  import opened Wrappers
  import Text
  import Json
  import Http
  import Seqs

  // ---------------------------------------------------------------- the form

  /** The optional filters of `getEvents`; `page` is kept whenever it is given, even 0. */
  datatype Filters = Filters(season: Option<string>, startDate: Option<string>, endDate: Option<string>, page: Option<int>)

  type Field = (string, string)

  const FormIdField: Field := ("form_id", "tq_search_search_form")
  const SeasonKey := "filters[level1][dates][inputs][seasons][input]"
  const StartKey := "filters[level1][dates][inputs][custom][dates][start]"
  const EndKey := "filters[level1][dates][inputs][custom][dates][end]"
  const PageKey := "page"
  const RegionFlag: Field := ("filters[level1][regions][inputs][quebec]", "1")

  /** A filter string JavaScript treats as true: given and non-empty. */
  predicate Given(v: Option<string>) { v.Some? && v.value != [] }

  /** The position of an optional field in the form, in the order the service appends them. */
  function Rank(key: string): int
  {
    if key == SeasonKey then 0 else if key == StartKey then 1 else if key == EndKey then 2
    else if key == PageKey then 3 else 4
  }

  /** A field that is appended only when its value is set. */
  function OptionalField(key: string, value: Option<string>): (r: seq<Field>)
    ensures |r| <= 1 && forall i :: 0 <= i < |r| ==> r[i].0 == key
  {
    if value.Some? then [(key, value.value)] else []
  }

  function SeasonValue(f: Filters): Option<string> { if Given(f.season) then f.season else None }
  function StartValue(f: Filters): Option<string> { if Given(f.startDate) then f.startDate else None }
  function EndValue(f: Filters): Option<string> { if Given(f.endDate) then f.endDate else None }
  function PageValue(f: Filters): Option<string>
  {
    if f.page.Some? then Some(Text.IntToString(f.page.value)) else None
  }

  /** The optional fields the filters produce, in append order. */
  function OptionalFields(f: Filters): (r: seq<Field>)
    ensures |r| <= 4
  {
    OptionalField(SeasonKey, SeasonValue(f)) + OptionalField(StartKey, StartValue(f)) +
    OptionalField(EndKey, EndValue(f)) + OptionalField(PageKey, PageValue(f))
  }

  /** The `FormData` of `getEvents`, appended field by field. */
  method BuildForm(f: Filters) returns (form: seq<Field>)
    ensures form == [FormIdField] + OptionalFields(f) + [RegionFlag]
    ensures form[0] == FormIdField && form[|form| - 1] == RegionFlag
  {
    ghost var season, start, end, page :=
      OptionalField(SeasonKey, SeasonValue(f)), OptionalField(StartKey, StartValue(f)),
      OptionalField(EndKey, EndValue(f)), OptionalField(PageKey, PageValue(f));
    form := [FormIdField];
    if Given(f.season) {
      form := form + [(SeasonKey, f.season.value)];
    }
    assert form == [FormIdField] + season;
    if Given(f.startDate) {
      form := form + [(StartKey, f.startDate.value)];
    }
    assert form == [FormIdField] + season + start;
    if Given(f.endDate) {
      form := form + [(EndKey, f.endDate.value)];
    }
    assert form == [FormIdField] + season + start + end;
    if f.page.Some? {
      form := form + [(PageKey, Text.IntToString(f.page.value))];
    }
    assert form == [FormIdField] + season + start + end + page;
    AppendFour([FormIdField], season, start, end, page);
    form := form + [RegionFlag];
  }

  /** Regrouping the optional fields behind the first one. */
  lemma AppendFour(first: seq<Field>, a: seq<Field>, b: seq<Field>, c: seq<Field>, d: seq<Field>)
    ensures first + a + b + c + d == first + (a + b + c + d)
  {
  }

  /** Each field's rank is below every later field's rank. */
  predicate InOrder(fields: seq<Field>)
  {
    forall i, j :: 0 <= i < j < |fields| ==> Rank(fields[i].0) < Rank(fields[j].0)
  }

  /** Every field's rank lies in [`lo`, `hi`). */
  predicate RanksIn(fields: seq<Field>, lo: int, hi: int)
  {
    forall i :: 0 <= i < |fields| ==> lo <= Rank(fields[i].0) < hi
  }

  lemma InOrderAppend(a: seq<Field>, b: seq<Field>, lo: int, mid: int, hi: int)
    requires lo <= mid <= hi && InOrder(a) && InOrder(b) && RanksIn(a, lo, mid) && RanksIn(b, mid, hi)
    ensures InOrder(a + b) && RanksIn(a + b, lo, hi)
  {
    forall i, j | 0 <= i < j < |a + b| ensures Rank((a + b)[i].0) < Rank((a + b)[j].0) {
      if j < |a| {
        assert (a + b)[i] == a[i] && (a + b)[j] == a[j];
      } else if i >= |a| {
        assert (a + b)[i] == b[i - |a|] && (a + b)[j] == b[j - |a|];
      } else {
        assert (a + b)[i] == a[i] && (a + b)[j] == b[j - |a|];
      }
    }
    forall i | 0 <= i < |a + b| ensures lo <= Rank((a + b)[i].0) < hi {
      if i < |a| { assert (a + b)[i] == a[i]; } else { assert (a + b)[i] == b[i - |a|]; }
    }
  }

  /** The four keys are told apart by their lengths, so each has its own rank. */
  lemma KeyRanks()
    ensures Rank(SeasonKey) == 0 && Rank(StartKey) == 1 && Rank(EndKey) == 2 && Rank(PageKey) == 3
  {
    assert |SeasonKey| == 46 && |StartKey| == 52 && |EndKey| == 50 && |PageKey| == 4;
  }

  /** The optional field for `key`, if any, has the rank of `key`. */
  lemma OptionalFieldRank(key: string, value: Option<string>)
    ensures InOrder(OptionalField(key, value))
    ensures RanksIn(OptionalField(key, value), Rank(key), Rank(key) + 1)
  {
  }

  /** The optional fields come in the order season, start, end, page, each at most once. */
  lemma FieldsInOrder(f: Filters)
    ensures InOrder(OptionalFields(f))
    ensures forall i :: 0 <= i < |OptionalFields(f)| ==> Rank(OptionalFields(f)[i].0) < 4
  {
    var s := OptionalField(SeasonKey, SeasonValue(f));
    var t := OptionalField(StartKey, StartValue(f));
    var e := OptionalField(EndKey, EndValue(f));
    var p := OptionalField(PageKey, PageValue(f));
    KeyRanks();
    OptionalFieldRank(SeasonKey, SeasonValue(f));
    OptionalFieldRank(StartKey, StartValue(f));
    OptionalFieldRank(EndKey, EndValue(f));
    OptionalFieldRank(PageKey, PageValue(f));
    InOrderAppend(s, t, 0, 1, 2);
    InOrderAppend(s + t, e, 0, 2, 3);
    InOrderAppend(s + t + e, p, 0, 3, 4);
  }

  /** Each optional field is sent exactly when it is set, with its value. */
  lemma FieldsWhenSet(f: Filters)
    ensures Given(f.season) <==> (SeasonKey, if f.season.Some? then f.season.value else "") in OptionalFields(f)
    ensures Given(f.startDate) <==> (StartKey, if f.startDate.Some? then f.startDate.value else "") in OptionalFields(f)
    ensures Given(f.endDate) <==> (EndKey, if f.endDate.Some? then f.endDate.value else "") in OptionalFields(f)
    ensures f.page.Some? <==> (exists i :: 0 <= i < |OptionalFields(f)| && OptionalFields(f)[i].0 == PageKey)
    ensures f.page.Some? ==> (PageKey, Text.IntToString(f.page.value)) in OptionalFields(f)
  {
    var s := OptionalField(SeasonKey, SeasonValue(f));
    var t := OptionalField(StartKey, StartValue(f));
    var e := OptionalField(EndKey, EndValue(f));
    var p := OptionalField(PageKey, PageValue(f));
    var r := OptionalFields(f);
    assert r == s + t + e + p;
    KeyRanks();
    if f.page.Some? {
      assert r[|r| - 1] == (PageKey, Text.IntToString(f.page.value));
    } else {
      forall i | 0 <= i < |r| ensures r[i].0 != PageKey {
        assert r == s + t + e;
      }
    }
  }

  /** Page 0 is sent: the page test is `!== undefined`, not truthiness. */
  lemma PageZeroSent(f: Filters)
    requires f.page == Some(0)
    ensures (PageKey, "0") in OptionalFields(f)
  {
    FieldsWhenSet(f);
    assert Text.IntToString(0) == "0";
  }

  /** An empty season or date is left out of the form. */
  lemma EmptyFiltersOmitted(f: Filters)
    requires f.season == Some("") && f.startDate == Some("") && f.endDate == Some("") && f.page.None?
    ensures OptionalFields(f) == []
  {
  }

  // --------------------------------------------------------- the HTML source

  /** An element of an answer array that carries the fragment: `command === 'insert' && data`. */
  predicate IsInsert(v: Json.Value)
  {
    v.Object? && "command" in v.fields && v.fields["command"] == Json.Str("insert") &&
    "data" in v.fields && Json.Truthy(v.fields["data"])
  }

  /** The search passes over every element before position `i`: none is `null`, none is an insert element. */
  predicate PassedOver(items: seq<Json.Value>, i: int)
    requires i <= |items|
  {
    forall j :: 0 <= j < i ==> !items[j].Null? && !IsInsert(items[j])
  }

  /** Putting an element the search passes over in front moves the passed-over prefix by one. */
  lemma PassedOverShift(items: seq<Json.Value>, i: nat)
    requires items != [] && !items[0].Null? && !IsInsert(items[0]) && i < |items| && PassedOver(items[1..], i)
    ensures PassedOver(items, i + 1)
  {
    forall j | 0 < j < i + 1 ensures !items[j].Null? && !IsInsert(items[j]) {
      assert items[j] == items[1..][j - 1];
    }
  }

  /**
   * `items.find(obj => obj.command === 'insert' && obj.data)`, yielding the
   * element's `data`: reading `command` from a `null` element met before the
   * first match throws.
   */
  function FirstInsertData(items: seq<Json.Value>): (r: Result<Option<Json.Value>>)
    ensures r == Success(None) <==> forall i :: 0 <= i < |items| ==> !items[i].Null? && !IsInsert(items[i])
    ensures r.Failure? ==> r.message == Json.NullReadMessage("command")
    ensures r.Failure? ==> exists i :: 0 <= i < |items| && items[i].Null? && PassedOver(items, i)
    ensures r.Success? && r.value.Some? ==>
              exists i :: 0 <= i < |items| && IsInsert(items[i]) && r.value.value == items[i].fields["data"] &&
                PassedOver(items, i)
  {
    if items == [] then Success(None)
    else if items[0].Null? then Failure(Json.NullReadMessage("command"))
    else if IsInsert(items[0]) then Success(Some(items[0].fields["data"]))
    else
      var rest := FirstInsertData(items[1..]);
      assert rest.Success? && rest.value.Some? ==>
        exists i :: 1 <= i < |items| && IsInsert(items[i]) &&
          rest.value.value == items[i].fields["data"] && PassedOver(items, i) by {
        if rest.Success? && rest.value.Some? {
          var i :| 0 <= i < |items[1..]| && IsInsert(items[1..][i]) && rest.value.value == items[1..][i].fields["data"] &&
            PassedOver(items[1..], i);
          PassedOverShift(items, i);
          assert items[i + 1] == items[1..][i];
        }
      }
      assert rest.Failure? ==> exists i :: 1 <= i < |items| && items[i].Null? && PassedOver(items, i) by {
        if rest.Failure? {
          var i :| 0 <= i < |items[1..]| && items[1..][i].Null? && PassedOver(items[1..], i);
          PassedOverShift(items, i);
          assert items[i + 1] == items[1..][i];
        }
      }
      assert rest == Success(None) ==> forall i :: 0 <= i < |items| ==> !items[i].Null? && !IsInsert(items[i]) by {
        if rest == Success(None) {
          forall i | 0 < i < |items| ensures !items[i].Null? && !IsInsert(items[i]) {
            assert items[i] == items[1..][i - 1];
          }
        }
      }
      rest
  }

  /** An insert element reached past elements that are neither `null` nor inserts is the one found. */
  lemma {:induction false} FoundAt(items: seq<Json.Value>, i: nat)
    requires i < |items| && PassedOver(items, i) && IsInsert(items[i])
    ensures FirstInsertData(items) == Success(Some(items[i].fields["data"]))
  {
    if i > 0 {
      assert PassedOver(items[1..], i - 1) by {
        forall j | 0 <= j < i - 1 ensures !items[1..][j].Null? && !IsInsert(items[1..][j]) {
          assert items[1..][j] == items[j + 1];
        }
      }
      assert items[1..][i - 1] == items[i];
      FoundAt(items[1..], i - 1);
    }
  }

  /** A `null` element reached past elements that are neither `null` nor inserts makes the search throw. */
  lemma {:induction false} NullReachedThrows(items: seq<Json.Value>, i: nat)
    requires i < |items| && PassedOver(items, i) && items[i].Null?
    ensures FirstInsertData(items) == Failure(Json.NullReadMessage("command"))
  {
    if i > 0 {
      assert PassedOver(items[1..], i - 1) by {
        forall j | 0 <= j < i - 1 ensures !items[1..][j].Null? && !IsInsert(items[1..][j]) {
          assert items[1..][j] == items[j + 1];
        }
      }
      assert items[1..][i - 1] == items[i];
      NullReachedThrows(items[1..], i - 1);
    }
  }

  /**
   * Where the fragment comes from: a thrown TypeError, no fragment (the empty
   * result), `Markup` still to be checked for a `<textarea>`, or `Direct` text
   * handed to the page parser as it is.
   */
  datatype Source = Raise(message: string) | NoEvents | Markup(html: string) | Direct(text: string)

  /**
   * The fragment an insert element's truthy `data` gives: a string is
   * markup; an array answers `includes('<textarea>')` itself, then either has
   * no `match` or reaches the parser as `String(data)`; any other value has no
   * `includes`. `toJsString` stands for JavaScript's `String(v)`.
   */
  function InsertedMarkup(data: Json.Value, toJsString: Json.Value -> string): Source
  {
    match data
    case Str(s) => Markup(s)
    case Array(xs) =>
      if Json.Str("<textarea>") in xs then Raise("html.match is not a function") else Direct(toJsString(data))
    case _ => Raise("html.includes is not a function")
  }

  /** The first dispatch on the answer: its `data` string, an array's insert element, or nothing. */
  function OuterSource(data: Json.Value, toJsString: Json.Value -> string): (r: Source)
    ensures data.Null? ==> r == Raise(Json.NullReadMessage("data"))
    ensures data.Object? && "data" in data.fields && data.fields["data"].Str? && data.fields["data"].s != [] ==>
              r == Markup(data.fields["data"].s)
    ensures !data.Null? && !data.Array? &&
            !(data.Object? && "data" in data.fields && data.fields["data"].Str? && data.fields["data"].s != []) ==>
              r == NoEvents
    ensures data.Array? && FirstInsertData(data.items) == Success(None) ==> r == NoEvents
    ensures data.Array? && FirstInsertData(data.items).Failure? ==> r == Raise(FirstInsertData(data.items).message)
    ensures data.Array? && FirstInsertData(data.items).Success? && FirstInsertData(data.items).value.Some? ==>
              r == InsertedMarkup(FirstInsertData(data.items).value.value, toJsString)
  {
    var d := Json.Get(data, "data");
    if d.Throws? then Raise(Json.NullReadMessage("data"))
    else if d.Found? && d.value.Str? && d.value.s != [] then Markup(d.value.s)
    else if data.Array? then
      match FirstInsertData(data.items)
      case Failure(m) => Raise(m)
      case Success(None) => NoEvents
      case Success(Some(v)) => InsertedMarkup(v, toJsString)
    else NoEvents
  }

  const OpenTag := "<textarea>"
  const CloseTag := "</textarea>"

  /**
   * The text `/<textarea>([\s\S]*?)<\/textarea>/` captures: from the first
   * opening tag to the first closing tag after it, when there is one.
   */
  function TextareaContent(html: string): (r: Option<string>)
    ensures r.Some? ==>
              exists i :: 0 <= i && i + |OpenTag| + |r.value| + |CloseTag| <= |html| &&
                Text.OccursAt(html, OpenTag, i) && Text.OccursAt(html, CloseTag, i + |OpenTag| + |r.value|) &&
                (forall k :: 0 <= k < i ==> !Text.OccursAt(html, OpenTag, k)) &&
                (forall k :: i + |OpenTag| <= k < i + |OpenTag| + |r.value| ==> !Text.OccursAt(html, CloseTag, k)) &&
                r.value == html[i + |OpenTag|..i + |OpenTag| + |r.value|]
    ensures (forall k :: 0 <= k ==> !Text.OccursAt(html, OpenTag, k)) ==> r.None?
  {
    match Text.IndexOf(html, OpenTag, 0)
    case None => None
    case Some(i) =>
      match Text.IndexOf(html, CloseTag, i + |OpenTag|)
      case None => None
      case Some(j) => Some(html[i + |OpenTag|..j])
  }

  /** An opening tag with a closing tag somewhere after it is always captured. */
  lemma CompleteTextareaIsCaptured(html: string, i: nat, j: nat)
    requires Text.OccursAt(html, OpenTag, i) && i + |OpenTag| <= j && Text.OccursAt(html, CloseTag, j)
    ensures TextareaContent(html).Some?
    ensures |TextareaContent(html).value| <= j - |OpenTag|
  {
    var first := Text.IndexOf(html, OpenTag, 0);
    assert first.Some? && first.value <= i;
    var close := Text.IndexOf(html, CloseTag, first.value + |OpenTag|);
    assert close.Some? && close.value <= j;
  }

  /**
   * The `<textarea>` step on markup: the captured text must be a JSON array
   * with an insert element, whose `data` the parser gets; every failure in
   * there is caught and gives the empty result. Markup without a complete
   * textarea goes on unchanged.
   */
  function TextareaSource(html: string, parseJson: string -> Result<Json.Value>,
                          toJsString: Json.Value -> string): (r: Source)
    ensures !r.Raise? && !r.Markup?
    ensures TextareaContent(html).None? ==> r == Direct(html)
    ensures (TextareaContent(html).Some? &&
             (parseJson(TextareaContent(html).value).Failure? || !parseJson(TextareaContent(html).value).value.Array?)) ==>
              r == NoEvents
    ensures TextareaContent(html).Some? && parseJson(TextareaContent(html).value).Success? &&
            parseJson(TextareaContent(html).value).value.Array? ==>
              var found := FirstInsertData(parseJson(TextareaContent(html).value).value.items);
              r == if found.Success? && found.value.Some? then Direct(if found.value.value.Str? then found.value.value.s else toJsString(found.value.value))
                   else NoEvents
  {
    match TextareaContent(html)
    case None => Direct(html)
    case Some(content) =>
      match parseJson(content)
      case Failure(_) => NoEvents
      case Success(v) =>
        if !v.Array? then NoEvents
        else
          match FirstInsertData(v.items)
          case Success(Some(d)) => Direct(if d.Str? then d.s else toJsString(d))
          case _ => NoEvents
  }

  // ------------------------------------------------------------------ answers

  /** A scraped event card. */
  datatype BonjourQuebecEvent = BonjourQuebecEvent(id: string, title: string, url: string, image: string,
                                                   dates: string, category: string, region: string)

  datatype BonjourQuebecResponse = BonjourQuebecResponse(events: seq<BonjourQuebecEvent>, totalResults: nat, currentPage: int)

  const EmptyResponse := BonjourQuebecResponse([], 0, 0)

  /**
   * What the DOM scraping of a page yields: the event cards, the text of the
   * count element (`None` when absent) and the active page number.
   */
  datatype Scraped = Scraped(events: seq<BonjourQuebecEvent>, countText: Option<string>, currentPage: int)

  /** `parseEventsFromHtml`: the scraped cards and page with the count read from its text. */
  function ParseEventsFromHtml(html: string, scrape: string -> Scraped): (r: BonjourQuebecResponse)
    ensures r.events == scrape(html).events && r.currentPage == scrape(html).currentPage
    ensures r.totalResults == TotalResults(scrape(html).countText)
  {
    var doc := scrape(html);
    BonjourQuebecResponse(doc.events, TotalResults(doc.countText), doc.currentPage)
  }

  /** `getEvents` either throws or answers. */
  datatype Outcome = Threw(thrown: Http.Thrown) | Answered(response: BonjourQuebecResponse)

  function HttpErrorMessage(status: int, statusText: string): string
  {
    "Erreur HTTP: " + Text.IntToString(status) + " - " + statusText
  }

  /** The answer `getEvents` gives for a relay reply, step by step as the service decides it. */
  function Expected(reply: Http.Upstream, parseJson: string -> Result<Json.Value>, toJsString: Json.Value -> string,
                    scrape: string -> Scraped): Outcome
  {
    match reply
    case Rejected(t) => Threw(t)
    case Reply(status, statusText, body) =>
      if !Http.IsOk(status) then Threw(Http.ErrorObject(HttpErrorMessage(status, statusText)))
      else match parseJson(body)
        case Failure(m) => Threw(Http.ErrorObject(m))
        case Success(data) =>
          var outer := OuterSource(data, toJsString);
          var source := if outer.Markup? then TextareaSource(outer.html, parseJson, toJsString) else outer;
          match source
          case Raise(m) => Threw(Http.ErrorObject(m))
          case NoEvents => Answered(EmptyResponse)
          case Markup(h) => Answered(ParseEventsFromHtml(h, scrape))
          case Direct(h) => Answered(ParseEventsFromHtml(h, scrape))
  }

  /**
   * `getEvents`: the form, then the reply's fragment reassigned to `html` as
   * each step finds a better one, then the page it parses to.
   */
  method GetEvents(filters: Filters, reply: Http.Upstream, parseJson: string -> Result<Json.Value>,
                   toJsString: Json.Value -> string, scrape: string -> Scraped)
    returns (form: seq<Field>, outcome: Outcome)
    ensures form == [FormIdField] + OptionalFields(filters) + [RegionFlag]
    ensures outcome == Expected(reply, parseJson, toJsString, scrape)
  {
    form := BuildForm(filters);
    match reply {
      case Rejected(t) =>
        outcome := Threw(t);
      case Reply(status, statusText, body) =>
        if !Http.IsOk(status) {
          outcome := Threw(Http.ErrorObject(HttpErrorMessage(status, statusText)));
          return;
        }
        var responseData := parseJson(body);
        if responseData.Failure? {
          outcome := Threw(Http.ErrorObject(responseData.message));
          return;
        }
        var html := "";
        var source := OuterSource(responseData.value, toJsString);
        if source.Raise? {
          outcome := Threw(Http.ErrorObject(source.message));
          return;
        }
        if source.NoEvents? {
          outcome := Answered(EmptyResponse);
          return;
        }
        if source.Direct? {
          html := source.text;
        } else {
          html := source.html;
          var inner := TextareaSource(html, parseJson, toJsString);
          if inner.NoEvents? {
            outcome := Answered(EmptyResponse);
            return;
          }
          html := inner.text;
        }
        outcome := Answered(ParseEventsFromHtml(html, scrape));
    }
  }

  /** A non-OK status throws; it never reads as an empty page. */
  lemma NotOkThrows(status: int, statusText: string, body: string, parseJson: string -> Result<Json.Value>,
                    toJsString: Json.Value -> string, scrape: string -> Scraped)
    requires !Http.IsOk(status)
    ensures Expected(Http.Reply(status, statusText, body), parseJson, toJsString, scrape) ==
              Threw(Http.ErrorObject(HttpErrorMessage(status, statusText)))
  {
  }

  /** A non-empty string `data` without a textarea is parsed as it is. */
  lemma StringDataIsTheFragment(status: int, statusText: string, body: string, fields: map<string, Json.Value>,
                                parseJson: string -> Result<Json.Value>, toJsString: Json.Value -> string,
                                scrape: string -> Scraped)
    requires Http.IsOk(status) && parseJson(body) == Success(Json.Object(fields))
    requires "data" in fields && fields["data"].Str? && fields["data"].s != []
    requires forall k :: 0 <= k ==> !Text.OccursAt(fields["data"].s, OpenTag, k)
    ensures Expected(Http.Reply(status, statusText, body), parseJson, toJsString, scrape) ==
              Answered(ParseEventsFromHtml(fields["data"].s, scrape))
  {
  }

  /** An answer that is neither an array nor carries a string `data` gives the empty result. */
  lemma OtherShapeIsEmpty(status: int, statusText: string, body: string, parseJson: string -> Result<Json.Value>,
                          toJsString: Json.Value -> string, scrape: string -> Scraped)
    requires Http.IsOk(status) && parseJson(body).Success?
    requires var d := parseJson(body).value;
             !d.Null? && !d.Array? && !(d.Object? && "data" in d.fields && d.fields["data"].Str? && d.fields["data"].s != [])
    ensures Expected(Http.Reply(status, statusText, body), parseJson, toJsString, scrape) == Answered(EmptyResponse)
  {
  }

  /** An array answer without an insert element (and without `null`s) gives the empty result. */
  lemma NoInsertIsEmpty(status: int, statusText: string, body: string, items: seq<Json.Value>,
                        parseJson: string -> Result<Json.Value>, toJsString: Json.Value -> string,
                        scrape: string -> Scraped)
    requires Http.IsOk(status) && parseJson(body) == Success(Json.Array(items))
    requires forall i :: 0 <= i < |items| ==> !items[i].Null? && !IsInsert(items[i])
    ensures Expected(Http.Reply(status, statusText, body), parseJson, toJsString, scrape) == Answered(EmptyResponse)
  {
  }

  /** An array answer whose insert element carries markup without a complete textarea is parsed as that markup. */
  lemma ArrayInsertIsTheFragment(status: int, statusText: string, body: string, items: seq<Json.Value>, i: nat,
                                 html: string, parseJson: string -> Result<Json.Value>,
                                 toJsString: Json.Value -> string, scrape: string -> Scraped)
    requires Http.IsOk(status) && parseJson(body) == Success(Json.Array(items))
    requires i < |items| && PassedOver(items, i) && IsInsert(items[i]) && items[i].fields["data"] == Json.Str(html)
    requires TextareaContent(html).None?
    ensures Expected(Http.Reply(status, statusText, body), parseJson, toJsString, scrape) ==
              Answered(ParseEventsFromHtml(html, scrape))
  {
    FoundAt(items, i);
  }

  /**
   * A string `data` holding a textarea whose JSON is an array with an insert
   * element is parsed as that element's markup.
   */
  lemma TextareaInsertIsTheFragment(status: int, statusText: string, body: string, fields: map<string, Json.Value>,
                                    content: string, items: seq<Json.Value>, i: nat, html: string,
                                    parseJson: string -> Result<Json.Value>, toJsString: Json.Value -> string,
                                    scrape: string -> Scraped)
    requires Http.IsOk(status) && parseJson(body) == Success(Json.Object(fields))
    requires "data" in fields && fields["data"].Str? && fields["data"].s != []
    requires TextareaContent(fields["data"].s) == Some(content) && parseJson(content) == Success(Json.Array(items))
    requires i < |items| && PassedOver(items, i) && IsInsert(items[i]) && items[i].fields["data"] == Json.Str(html)
    ensures Expected(Http.Reply(status, statusText, body), parseJson, toJsString, scrape) ==
              Answered(ParseEventsFromHtml(html, scrape))
  {
    FoundAt(items, i);
  }

  // -------------------------------------------------------------- the count

  /** The end of the run of digits starting at `i`. */
  function DigitRunEnd(s: string, i: nat): (e: nat)
    requires i <= |s|
    decreases |s| - i
    ensures i <= e <= |s|
    ensures forall k :: i <= k < e ==> Text.IsDigit(s[k])
    ensures e == |s| || !Text.IsDigit(s[e])
  {
    if i == |s| || !Text.IsDigit(s[i]) then i else DigitRunEnd(s, i + 1)
  }

  /** Where `/(\d+)/` matches: the bounds of the first maximal run of digits, if any. */
  function FirstDigitRun(s: string): (r: Option<(nat, nat)>)
    ensures r.None? <==> forall k :: 0 <= k < |s| ==> !Text.IsDigit(s[k])
    ensures r.Some? ==> r.value.0 < r.value.1 <= |s| && Text.AllDigits(s[r.value.0..r.value.1])
    ensures r.Some? ==> forall k :: 0 <= k < r.value.0 ==> !Text.IsDigit(s[k])
    ensures r.Some? ==> r.value.1 == |s| || !Text.IsDigit(s[r.value.1])
  {
    match Seqs.FirstIndex(s, Text.IsDigit)
    case None => None
    case Some(i) => Some((i, DigitRunEnd(s, i)))
  }

  /** `totalResults`: the value of the count's first digit run, or 0. */
  function TotalResults(countText: Option<string>): nat
  {
    if countText.None? then 0
    else match FirstDigitRun(countText.value)
      case None => 0
      case Some((start, end)) => Text.DigitsValue(countText.value[start..end])
  }

  /** A count printed after a digit-free caption reads back as that count. */
  lemma {:induction false} CountReadsBack(caption: string, n: nat, rest: string)
    requires forall k :: 0 <= k < |caption| ==> !Text.IsDigit(caption[k])
    requires rest == [] || !Text.IsDigit(rest[0])
    ensures TotalResults(Some(caption + Text.NatToString(n) + rest)) == n
  {
    var digits := Text.NatToString(n);
    var s := caption + digits + rest;
    var end := |caption| + |digits|;
    assert forall k :: 0 <= k < |caption| ==> !Text.IsDigit(s[k]) by {
      forall k | 0 <= k < |caption| ensures s[k] == caption[k] { }
    }
    assert forall k :: |caption| <= k < end ==> Text.IsDigit(s[k]) by {
      forall k | |caption| <= k < end ensures s[k] == digits[k - |caption|] { }
    }
    assert end == |s| || !Text.IsDigit(s[end]) by {
      if end < |s| { assert s[end] == rest[0]; }
    }
    var r := FirstDigitRun(s);
    assert r.Some? && r.value.0 == |caption| by {
      assert Text.IsDigit(s[|caption|]);
    }
    assert r.value.1 == end;
    assert s[|caption|..end] == digits;
    Text.NatToStringRoundTrip(n);
  }

  // -------------------------------------------------------------- the dates

  predicate Blank(c: char) { Text.IsJsWhitespace(c) }

  predicate NotBlank(c: char) { !Text.IsJsWhitespace(c) }

  /** Every blank is a plain space followed by a non-blank, or ends the text. */
  predicate Tidy(s: string)
  {
    forall i :: 0 <= i < |s| && Blank(s[i]) ==> s[i] == ' ' && (i + 1 == |s| || NotBlank(s[i + 1]))
  }

  /** `s.replace(/\s+/g, ' ')`: every maximal run of blanks becomes one space. */
  function CollapseRuns(s: string): (r: string)
    decreases |s|
    ensures (r == []) == (s == [])
    ensures r != [] ==> (Blank(r[0]) <==> Blank(s[0]))
    ensures Tidy(r)
  {
    if s == [] then []
    else
      var tail := if Blank(s[0]) then Text.TrimStart(s[1..]) else s[1..];
      var t := CollapseRuns(tail);
      var r := [if Blank(s[0]) then ' ' else s[0]] + t;
      assert forall i :: 0 < i < |r| ==> r[i] == t[i - 1];
      r
  }

  /** The collapsed text ends on a blank exactly when the original does. */
  lemma {:induction false} RunsKeepLastBlankness(s: string)
    requires s != []
    decreases |s|
    ensures var r := CollapseRuns(s); Blank(r[|r| - 1]) <==> Blank(s[|s| - 1])
  {
    var tail := if Blank(s[0]) then Text.TrimStart(s[1..]) else s[1..];
    var r := CollapseRuns(s);
    assert r[1..] == CollapseRuns(tail);
    if tail != [] {
      RunsKeepLastBlankness(tail);
      assert tail[|tail| - 1] == s[|s| - 1];
    } else if Blank(s[0]) && |s| > 1 {
      assert Text.LeadingBlanks(s[1..]) == |s| - 1;
      assert s[1..][|s| - 2] == s[|s| - 1];
    }
  }

  lemma Regroup(a: string, b: string, c: string)
    ensures a + (b + c) == (a + b) + c
  {
  }

  /** Runs never cross the end of a text that ends on a non-blank, so its runs collapse on their own. */
  lemma {:induction false} RunsAppend(x: string, y: string)
    requires x == [] || NotBlank(x[|x| - 1])
    decreases |x|
    ensures CollapseRuns(x + y) == CollapseRuns(x) + CollapseRuns(y)
  {
    if x != [] {
      var xy, rest := x + y, x[1..];
      assert xy[0] == x[0] && xy[1..] == rest + y;
      if Blank(x[0]) {
        var t := Text.TrimStart(rest);
        assert Text.TrimStart(rest + y) == t + y && t != [] && NotBlank(t[|t| - 1]) by {
          assert rest != [] && rest[|rest| - 1] == x[|x| - 1];
          Text.TrimStartAppend(rest, y);
        }
        RunsAppend(t, y);
        calc {
          CollapseRuns(xy);
          [' '] + CollapseRuns(t + y);
          [' '] + (CollapseRuns(t) + CollapseRuns(y));
          { Regroup([' '], CollapseRuns(t), CollapseRuns(y)); }
          ([' '] + CollapseRuns(t)) + CollapseRuns(y);
        }
      } else {
        RunsAppend(rest, y);
        calc {
          CollapseRuns(xy);
          [x[0]] + CollapseRuns(rest + y);
          [x[0]] + (CollapseRuns(rest) + CollapseRuns(y));
          { Regroup([x[0]], CollapseRuns(rest), CollapseRuns(y)); }
          ([x[0]] + CollapseRuns(rest)) + CollapseRuns(y);
        }
      }
    } else {
      assert x + y == y;
    }
  }

  /** A whitespace run between two non-blank ends becomes exactly one space. */
  lemma RunBecomesOneSpace(a: string, w: string, b: string)
    requires a == [] || NotBlank(a[|a| - 1])
    requires w != [] && forall k :: 0 <= k < |w| ==> Blank(w[k])
    requires b == [] || NotBlank(b[0])
    ensures CollapseRuns(a + w + b) == CollapseRuns(a) + " " + CollapseRuns(b)
  {
    var wb := w + b;
    assert CollapseRuns(wb) == " " + CollapseRuns(b) by {
      assert wb[0] == w[0] && wb[1..] == w[1..] + b;
      Text.TrimStartBlanks(w[1..], b);
    }
    calc {
      CollapseRuns(a + w + b);
      { Regroup(a, w, b); }
      CollapseRuns(a + wb);
      { RunsAppend(a, wb); }
      CollapseRuns(a) + (" " + CollapseRuns(b));
      { Regroup(CollapseRuns(a), " ", CollapseRuns(b)); }
      CollapseRuns(a) + " " + CollapseRuns(b);
    }
  }

  /** A piece of a tidy text that ends on a non-blank is tidy. */
  lemma TidyPiece(s: string, from: nat, to: nat)
    requires Tidy(s) && from <= to <= |s|
    requires from < to ==> NotBlank(s[to - 1])
    ensures Tidy(s[from..to])
  {
    var p := s[from..to];
    forall i | 0 <= i < |p| && Blank(p[i]) ensures p[i] == ' ' && (i + 1 == |p| || NotBlank(p[i + 1])) {
      assert p[i] == s[from + i];
      if i + 1 < |p| { assert p[i + 1] == s[from + i + 1]; }
    }
  }

  /** `.replace(/\s+/g, ' ').trim()`. */
  function Collapse(s: string): (r: string)
    ensures r == [] || (NotBlank(r[0]) && NotBlank(r[|r| - 1]))
    ensures Tidy(r)
  {
    var c := CollapseRuns(s);
    Text.TrimIsInfix(c);
    var off := |c| - |Text.TrimStart(c)|;
    TidyPiece(c, off, off + |Text.Trim(c)|);
    Text.Trim(c)
  }

  /**
   * Between two texts with non-blank ends, any whitespace run collapses to
   * one space and each side collapses as it would alone.
   */
  lemma CollapseJoinsWithOneSpace(a: string, w: string, b: string)
    requires a != [] && NotBlank(a[|a| - 1])
    requires w != [] && forall k :: 0 <= k < |w| ==> Blank(w[k])
    requires b != [] && NotBlank(b[0])
    ensures Collapse(a + w + b) == Collapse(a) + " " + Collapse(b)
  {
    var ca, cb := CollapseRuns(a), CollapseRuns(b);
    var sa := Text.TrimStart(ca);
    assert sa != [] && NotBlank(sa[|sa| - 1]) && NotBlank(cb[0]) by {
      RunsKeepLastBlankness(a);
      assert ca != [] && NotBlank(ca[|ca| - 1]);
    }
    assert Collapse(a) == sa by {
      assert Text.TrailingBlanks(sa) == 0;
    }
    assert Collapse(b) == Text.TrimEnd(cb) by {
      assert Text.LeadingBlanks(cb) == 0;
    }
    calc {
      Collapse(a + w + b);
      { RunBecomesOneSpace(a, w, b); }
      Text.TrimEnd(Text.TrimStart(ca + " " + cb));
      { Regroup(ca, " ", cb); Text.TrimStartAppend(ca, " " + cb); }
      Text.TrimEnd(sa + (" " + cb));
      { Regroup(sa, " ", cb); Text.TrimEndPrepend(sa + " ", cb); }
      sa + " " + Text.TrimEnd(cb);
    }
  }

  /**
   * `formatEventDates`: the collapse, the dash rewrites of the source
   * (`rewrite`, not modelled), and the collapse again.
   */
  function FormatEventDates(datesString: string, rewrite: string -> string): (r: string)
    ensures r == [] || (NotBlank(r[0]) && NotBlank(r[|r| - 1]))
    ensures Tidy(r)
  {
    Collapse(rewrite(Collapse(datesString)))
  }

  /** A tidy text has no two blanks in a row, and its only blank is the space. */
  lemma TidyMeansSingleSpaces(s: string)
    requires Tidy(s)
    ensures forall i :: 0 <= i < |s| - 1 ==> !(Blank(s[i]) && Blank(s[i + 1]))
    ensures forall i :: 0 <= i < |s| && Blank(s[i]) ==> s[i] == ' '
  {
  }

  /** Dropping leading blanks drops nothing the blank-free view sees. */
  lemma {:induction false} BlanksAreDropped(s: string)
    ensures Seqs.Filter(Text.TrimStart(s), NotBlank) == Seqs.Filter(s, NotBlank)
  {
    if s != [] && Blank(s[0]) {
      BlanksAreDropped(s[1..]);
    }
  }

  /** Collapsing runs keeps the non-blank characters and their order. */
  lemma {:induction false} CollapseRunsKeepsText(s: string)
    decreases |s|
    ensures Seqs.Filter(CollapseRuns(s), NotBlank) == Seqs.Filter(s, NotBlank)
  {
    if s != [] {
      var tail := if Blank(s[0]) then Text.TrimStart(s[1..]) else s[1..];
      CollapseRunsKeepsText(tail);
      if Blank(s[0]) {
        BlanksAreDropped(s[1..]);
      }
      var r := CollapseRuns(s);
      assert r[1..] == CollapseRuns(tail);
    }
  }

  /** Dropping trailing blanks drops nothing the blank-free view sees. */
  lemma TrailingBlanksAreDropped(s: string)
    ensures Seqs.Filter(Text.TrimEnd(s), NotBlank) == Seqs.Filter(s, NotBlank)
  {
    var n := |s| - Text.TrailingBlanks(s);
    var kept, cut := s[..n], s[n..];
    assert s == kept + cut;
    Seqs.FilterAppend(kept, cut, NotBlank);
    assert forall k :: 0 <= k < |cut| ==> Blank(cut[k]) by {
      forall k | 0 <= k < |cut| ensures Blank(cut[k]) { assert cut[k] == s[n + k]; }
    }
    assert Seqs.Filter(cut, NotBlank) == [];
  }


  /** The collapse only touches blanks: the non-blank characters and their order are kept. */
  lemma {:induction false} CollapseKeepsText(s: string)
    ensures Seqs.Filter(Collapse(s), NotBlank) == Seqs.Filter(s, NotBlank)
  {
    var c := CollapseRuns(s);
    var t := Text.TrimStart(c);
    var e := Text.TrimEnd(t);
    assert Collapse(s) == e;
    calc {
      Seqs.Filter(e, NotBlank);
      { TrailingBlanksAreDropped(t); }
      Seqs.Filter(t, NotBlank);
      { BlanksAreDropped(c); }
      Seqs.Filter(c, NotBlank);
      { CollapseRunsKeepsText(s); }
      Seqs.Filter(s, NotBlank);
    }
  }
}
