/** The EBI BioSample API client: a stateful fetcher that pages through the
    samples updated in a date range, flattening each sample's
    characteristics and buffering the samples in memory. The HTTP requests
    are not performed: the model is given the responses, one page per
    request, and returns the requests it made. */
module EbiFetcher {
  import opened Common
  import opened Values
  import opened Dates

  const BaseUrl: string := "https://www.ebi.ac.uk/biosamples/samples"

  /** A sample's `characteristics` object: each key with its list of value
      objects, in the object's key order. */
  type Characteristics = seq<(string, seq<Record>)>

  /** A sample as the API sends it; `characteristics` may be missing. */
  datatype RawSample = RawSample(fields: Record, characteristics: Option<Characteristics>)

  /** A sample as the fetcher yields it: the characteristics flattened to
      one list. */
  datatype Sample = Sample(fields: Record, characteristics: seq<Record>)

  /** The `_links` part of a response: missing, without `next`, with a
      `next` that has no `href`, or with a `next` href. */
  datatype NextLink = NoLinks | NoNext | NextWithoutHref | Next(href: string)

  /** One response: `_embedded.samples` (None when either key is missing)
      and its links. */
  datatype Page = Page(samples: Option<seq<RawSample>>, next: NextLink)

  /** A GET request: the base URL with the query parameters, or a URL the
      API returned as a `next` link. */
  datatype Request =
    | First(url: string, cursor: string, size: int, filter: string)
    | Follow(url: string)

  // ---------------------------------------------------------------------------
  // date_filter_string
  // ---------------------------------------------------------------------------

  /** `date_filter_string`: both dates as `YYYY-MM-DD`; there is no
      separator before `until=`. */
  function DateFilterString(startDate: Date, endDate: Date): string
    requires ValidDate(startDate) && ValidDate(endDate)
  {
    "dt:update:from=" + FormatIso(startDate) + "until=" + FormatIso(endDate)
  }

  /** Where the two dates sit in the filter. */
  lemma DateFilterLayout(startDate: Date, endDate: Date)
    requires ValidDate(startDate) && ValidDate(endDate)
    ensures var s := DateFilterString(startDate, endDate);
      && |s| == 41
      && s[..15] == "dt:update:from=" && s[15..25] == FormatIso(startDate)
      && s[25..31] == "until=" && s[31..] == FormatIso(endDate)
  {
    FieldsOf("dt:update:from=", FormatIso(startDate), "until=", FormatIso(endDate));
  }

  /** The filter names its date range exactly: two filters are equal only
      for equal ranges. */
  lemma DateFilterInjective(s1: Date, e1: Date, s2: Date, e2: Date)
    requires ValidDate(s1) && ValidDate(e1) && ValidDate(s2) && ValidDate(e2)
    ensures DateFilterString(s1, e1) == DateFilterString(s2, e2) <==> s1 == s2 && e1 == e2
  {
    DateFilterLayout(s1, e1);
    DateFilterLayout(s2, e2);
    FormatIsoInjective(s1, s2);
    FormatIsoInjective(e1, e2);
  }

  // ---------------------------------------------------------------------------
  // Flattening the characteristics
  // ---------------------------------------------------------------------------

  /** The value objects of one characteristic, each tagged with its key. */
  function Tagged(key: string, values: seq<Record>): (r: seq<Record>)
    ensures |r| == |values|
  {
    seq(|values|, j requires 0 <= j < |values| => values[j]["characteristic" := Str(key)])
  }

  /** All the value objects, key by key. */
  function Flattened(cs: Characteristics): seq<Record>
  {
    if |cs| == 0 then [] else Flattened(cs[..|cs| - 1]) + Tagged(cs[|cs| - 1].0, cs[|cs| - 1].1)
  }

  /** The number of value objects over all keys. */
  function ValueCount(cs: Characteristics): nat
  {
    if |cs| == 0 then 0 else ValueCount(cs[..|cs| - 1]) + |cs[|cs| - 1].1|
  }

  lemma {:induction false} FlattenedLength(cs: Characteristics)
    ensures |Flattened(cs)| == ValueCount(cs)
  {
    if |cs| > 0 {
      FlattenedLength(cs[..|cs| - 1]);
    }
  }

  /** The flattened list holds value `j` of key `i` at offset
      `ValueCount(cs[..i]) + j`, tagged with key `i`. */
  lemma {:induction false} FlattenedAt(cs: Characteristics, i: nat, j: nat)
    requires i < |cs| && j < |cs[i].1|
    ensures ValueCount(cs[..i]) + j < |Flattened(cs)|
    ensures Flattened(cs)[ValueCount(cs[..i]) + j] == cs[i].1[j]["characteristic" := Str(cs[i].0)]
  {
    var n := |cs| - 1;
    TakeOneMore(cs, n);
    TakeAll(cs);
    FlattenedLength(cs[..n]);
    FlattenedLength(cs);
    if i < n {
      TakeOfTake(cs, n, i);
      FlattenedAt(cs[..n], i, j);
    }
  }

  lemma TaggedOneMore(key: string, values: seq<Record>, j: nat)
    requires j < |values|
    ensures Tagged(key, values[..j + 1]) == Tagged(key, values[..j]) + [values[j]["characteristic" := Str(key)]]
  {
  }

  /** The two nested loops of `fetch_next_set` over `characteristics.items()`
      and each value list. */
  method FlattenCharacteristics(cs: Characteristics) returns (flat: seq<Record>)
    ensures flat == Flattened(cs)
  {
    flat := [];
    for i := 0 to |cs|
      invariant flat == Flattened(cs[..i])
    {
      var (k, v) := cs[i];
      ghost var before := flat;
      for j := 0 to |v|
        invariant flat == before + Tagged(k, v[..j])
      {
        TaggedOneMore(k, v, j);
        flat := flat + [v[j]["characteristic" := Str(k)]];
      }
      TakeAll(v);
      TakeOneMore(cs, i);
    }
    TakeAll(cs);
  }

  // ---------------------------------------------------------------------------
  // Pagination
  // ---------------------------------------------------------------------------

  /** The index of the first sample without `characteristics` (where the
      `KeyError` is raised), or the number of samples. */
  function FirstMissing(ss: seq<RawSample>): (n: nat)
    ensures n <= |ss|
    ensures forall k | 0 <= k < n :: ss[k].characteristics.Some?
    ensures n < |ss| ==> ss[n].characteristics.None?
  {
    if |ss| == 0 then 0
    else if ss[0].characteristics.None? then 0
    else 1 + FirstMissing(ss[1..])
  }

  function Yield(s: RawSample): Sample
    requires s.characteristics.Some?
  {
    Sample(s.fields, Flattened(s.characteristics.value))
  }

  /** The samples a page yields: all of them, or those before the first one
      without characteristics. */
  function PageYield(p: Page): (r: seq<Sample>)
    ensures p.samples.None? ==> r == []
    ensures p.samples.Some? ==> |r| == FirstMissing(p.samples.value)
  {
    if p.samples.None? then []
    else
      var ss := p.samples.value;
      seq(FirstMissing(ss), k requires 0 <= k < FirstMissing(ss) => Yield(ss[k]))
  }

  /** A page sets `any_samples` as soon as its loop reaches a sample, before
      that sample's characteristics are read. */
  predicate PageReached(p: Page)
  {
    p.samples.Some? && |p.samples.value| > 0
  }

  /** The URL the loop continues with after the page, or None when the page
      ends it: no `next` link, or a `KeyError` anywhere in the page. */
  function PageNext(p: Page): (r: Option<string>)
    ensures r.Some? ==> p.samples.Some? && FirstMissing(p.samples.value) == |p.samples.value| && p.next == Next(r.value)
  {
    if p.samples.None? || FirstMissing(p.samples.value) < |p.samples.value| then None
    else if p.next.Next? then Some(p.next.href) else None
  }

  /** The samples yielded over the given pages, in order. */
  function Yielded(ps: seq<Page>): seq<Sample>
  {
    if |ps| == 0 then [] else Yielded(ps[..|ps| - 1]) + PageYield(ps[|ps| - 1])
  }

  predicate Reached(ps: seq<Page>)
  {
    exists k | 0 <= k < |ps| :: PageReached(ps[k])
  }

  /** The page that ends the loop, or `|ps|` when none of them does. */
  function FirstStop(ps: seq<Page>): (n: nat)
    ensures n <= |ps|
    ensures forall k | 0 <= k < n :: PageNext(ps[k]).Some?
    ensures n < |ps| ==> PageNext(ps[n]).None?
  {
    if |ps| == 0 then 0
    else if PageNext(ps[0]).None? then 0
    else 1 + FirstStop(ps[1..])
  }

  /** A sample as a row for the Parquet writer. */
  function SampleRecord(s: Sample): (r: Record)
    ensures "characteristics" in r && r["characteristics"].List?
    ensures |r["characteristics"].items| == |s.characteristics|
  {
    s.fields["characteristics" := List(seq(|s.characteristics|, k requires 0 <= k < |s.characteristics| => Struct(s.characteristics[k])))]
  }

  // ---------------------------------------------------------------------------
  // SampleFetcher
  // ---------------------------------------------------------------------------

  class SampleFetcher {
    const cursor: string
    const size: int
    const startDate: Date
    const endDate: Date
    const outputDirectory: string
    const baseUrl: string
    var fullUrl: Option<string>
    var anySamples: bool
    var processedCount: nat
    var samplesBuffer: seq<Sample>

    /** Python `date` objects are always valid calendar dates. */
    predicate Valid()
    {
      ValidDate(startDate) && ValidDate(endDate)
    }

    constructor (cursor: string, size: int, startDate: Date, endDate: Date, outputDirectory: string)
      requires ValidDate(startDate) && ValidDate(endDate)
      ensures Valid()
      ensures this.cursor == cursor && this.size == size && this.startDate == startDate && this.endDate == endDate
      ensures this.outputDirectory == outputDirectory && baseUrl == BaseUrl
      ensures fullUrl == None && !anySamples && processedCount == 0 && samplesBuffer == []
    {
      this.cursor := cursor;
      this.size := size;
      this.startDate := startDate;
      this.endDate := endDate;
      this.outputDirectory := outputDirectory;
      baseUrl := BaseUrl;
      fullUrl := None;
      anySamples := false;
      processedCount := 0;
      samplesBuffer := [];
    }

    /** The request `perform_request` sends: the followed link once there
        is one, the base URL with cursor, size and filter before that. */
    function NextRequest(): (r: Request)
      requires Valid()
      reads this`fullUrl
      ensures r.Follow? <==> fullUrl.Some?
      ensures r.First? ==> r.url == baseUrl && r.cursor == cursor && r.size == size
                           && r.filter == DateFilterString(startDate, endDate)
    {
      if fullUrl.Some? then Follow(fullUrl.value) else First(baseUrl, cursor, size, DateFilterString(startDate, endDate))
    }

    /** `process`: resets the count and consumes `fetch_next_set`, whose
        loop requests one page after another until a page ends it. The
        buffer is not cleared. */
    method Process(pages: seq<Page>) returns (requests: seq<Request>)
      requires Valid() && FirstStop(pages) < |pages|
      modifies this
      ensures var s := FirstStop(pages);
        && Fetched(pages, s + 1, old(samplesBuffer), old(anySamples), old(NextRequest()), requests)
        && fullUrl == (if s == 0 then old(fullUrl) else PageNext(pages[s - 1]))
    {
      processedCount := 0;
      requests := ConsumeSamples(pages);
    }

    /** The `async for` loop of `process` over `fetch_next_set`, the count
        starting at zero: each yielded sample is buffered and counted. */
    method ConsumeSamples(pages: seq<Page>) returns (requests: seq<Request>)
      requires Valid() && FirstStop(pages) < |pages| && processedCount == 0
      modifies this
      ensures var s := FirstStop(pages);
        && Fetched(pages, s + 1, old(samplesBuffer), old(anySamples), old(NextRequest()), requests)
        && fullUrl == (if s == 0 then old(fullUrl) else PageNext(pages[s - 1]))
    {
      ghost var buffer0, any0, first, url0 := samplesBuffer, anySamples, NextRequest(), fullUrl;
      requests := [];
      var j := 0;
      assert pages[..0] == [];
      while true
        invariant Consumed(pages, j, buffer0, any0, first, requests, url0)
        decreases FirstStop(pages) - j
      {
        var more;
        requests, more := FetchStep(pages, j, buffer0, any0, first, url0, requests);
        if !more {
          return;
        }
        j := j + 1;
      }
    }

    /** What `process` has done after the first `j` pages: counted and
        buffered their samples, noted whether it reached one, and sent one
        request per page, each after the first to the `next` link of the
        page before. */
    ghost predicate Fetched(pages: seq<Page>, j: nat, buffer0: seq<Sample>, any0: bool, first: Request,
                            requests: seq<Request>)
      reads this
      requires j <= |pages|
    {
      && processedCount == |Yielded(pages[..j])|
      && samplesBuffer == buffer0 + Yielded(pages[..j])
      && anySamples == (any0 || Reached(pages[..j]))
      && Requested(pages, j, first, requests)
    }

    /** Where `process` stands before page `j`: the pages before it are
        consumed, none of them the stopping page, the next request is still
        the first one when nothing was fetched, and `full_url` is the `next`
        link of the last page consumed (`url0` before any). */
    ghost predicate Consumed(pages: seq<Page>, j: nat, buffer0: seq<Sample>, any0: bool, first: Request,
                             requests: seq<Request>, url0: Option<string>)
      reads this
    {
      && Valid() && j <= FirstStop(pages) < |pages|
      && Fetched(pages, j, buffer0, any0, first, requests)
      && (j == 0 ==> NextRequest() == first)
      && fullUrl == (if j == 0 then url0 else PageNext(pages[j - 1]))
    }

    /** `process` has returned: every page up to the stopping one is
        consumed, and `full_url` is the link of the page before it. */
    ghost predicate Stopped(pages: seq<Page>, buffer0: seq<Sample>, any0: bool, first: Request,
                            requests: seq<Request>, url0: Option<string>)
      reads this
      requires FirstStop(pages) < |pages|
    {
      var s := FirstStop(pages);
      && Fetched(pages, s + 1, buffer0, any0, first, requests)
      && fullUrl == (if s == 0 then url0 else PageNext(pages[s - 1]))
    }

    /** One turn of the `while True` loop of `fetch_next_set`: request page
        `j`, consume it, and follow its `next` link if the loop goes on. */
    method FetchStep(pages: seq<Page>, j: nat, ghost buffer0: seq<Sample>, ghost any0: bool, ghost first: Request,
                     ghost url0: Option<string>, requests: seq<Request>)
      returns (requests': seq<Request>, more: bool)
      requires Consumed(pages, j, buffer0, any0, first, requests, url0)
      modifies this
      ensures more <==> j < FirstStop(pages)
      ensures more ==> Consumed(pages, j + 1, buffer0, any0, first, requests', url0)
      ensures !more ==> fullUrl == old(fullUrl) && Stopped(pages, buffer0, any0, first, requests', url0)
    {
      var request := NextRequest();
      RequestedOneMore(pages, j, first, requests, request);
      requests' := requests + [request];
      var next := FetchPage(pages[j]);
      YieldedOneMore(pages, j);
      AppendAssoc(buffer0, Yielded(pages[..j]), PageYield(pages[j]));
      ReachedOneMore(pages, j);
      more := next.Some?;
      if more {
        fullUrl := next;
        TurnGoesOn(pages, j, buffer0, any0, first, requests', url0);
      } else {
        TurnStops(pages, j, buffer0, any0, first, requests', url0);
      }
    }

    /** A page with a `next` link is not the stopping page, and the walk
        goes on to the page after it. */
    lemma TurnGoesOn(pages: seq<Page>, j: nat, buffer0: seq<Sample>, any0: bool, first: Request,
                     requests: seq<Request>, url0: Option<string>)
      requires Valid() && j <= FirstStop(pages) < |pages|
      requires Fetched(pages, j + 1, buffer0, any0, first, requests)
      requires PageNext(pages[j]).Some? && fullUrl == PageNext(pages[j])
      ensures j < FirstStop(pages) && Consumed(pages, j + 1, buffer0, any0, first, requests, url0)
    {
    }

    /** A page without one is the stopping page: the walk has consumed every
        page up to it and stops with `full_url` as it was. */
    lemma TurnStops(pages: seq<Page>, j: nat, buffer0: seq<Sample>, any0: bool, first: Request,
                    requests: seq<Request>, url0: Option<string>)
      requires Valid() && j <= FirstStop(pages) < |pages|
      requires Fetched(pages, j + 1, buffer0, any0, first, requests)
      requires PageNext(pages[j]).None? && fullUrl == (if j == 0 then url0 else PageNext(pages[j - 1]))
      ensures j == FirstStop(pages) && Stopped(pages, buffer0, any0, first, requests, url0)
    {
    }

    /** One response of `fetch_next_set`: each sample reached sets
        `any_samples`; each yielded one is appended to the buffer and
        counted by `process`. Returns where the loop goes next. */
    method FetchPage(page: Page) returns (next: Option<string>)
      modifies this
      ensures next == PageNext(page)
      ensures samplesBuffer == old(samplesBuffer) + PageYield(page)
      ensures processedCount == old(processedCount) + |PageYield(page)|
      ensures anySamples == (old(anySamples) || PageReached(page))
      ensures fullUrl == old(fullUrl)
    {
      if page.samples.None? {
        AppendEmpty(samplesBuffer);
        return None;
      }
      var ss := page.samples.value;
      ghost var buffer0 := samplesBuffer;
      for i := 0 to |ss|
        invariant i <= FirstMissing(ss)
        invariant anySamples == (old(anySamples) || i > 0)
        invariant samplesBuffer == buffer0 + PageYield(page)[..i]
        invariant processedCount == old(processedCount) + i
        invariant fullUrl == old(fullUrl)
      {
        anySamples := true;
        if ss[i].characteristics.None? {
          return None;
        }
        var flat := FlattenCharacteristics(ss[i].characteristics.value);
        TakeOneMore(PageYield(page), i);
        samplesBuffer := samplesBuffer + [Sample(ss[i].fields, flat)];
        processedCount := processedCount + 1;
      }
      TakeAll(PageYield(page));
      next := if page.next.Next? then Some(page.next.href) else None;
    }
  }

  /** One request per page so far: the first is `first`, and each later
      one follows the `next` link of the page before. */
  predicate Requested(pages: seq<Page>, j: nat, first: Request, requests: seq<Request>)
    requires j <= |pages|
  {
    && |requests| == j && (j > 0 ==> requests[0] == first)
    && forall k | 1 <= k < j :: requests[k].Follow? && PageNext(pages[k - 1]) == Some(requests[k].url)
  }

  lemma RequestedOneMore(pages: seq<Page>, j: nat, first: Request, requests: seq<Request>, r: Request)
    requires j < |pages| && Requested(pages, j, first, requests)
    requires j == 0 ==> r == first
    requires j > 0 ==> r.Follow? && PageNext(pages[j - 1]) == Some(r.url)
    ensures Requested(pages, j + 1, first, requests + [r])
  {
  }

  lemma YieldedOneMore(ps: seq<Page>, j: nat)
    requires j < |ps|
    ensures Yielded(ps[..j + 1]) == Yielded(ps[..j]) + PageYield(ps[j])
    ensures |Yielded(ps[..j + 1])| == |Yielded(ps[..j])| + |PageYield(ps[j])|
  {
    TakeOneMore(ps, j);
  }

  lemma ReachedOneMore(ps: seq<Page>, j: nat)
    requires j < |ps|
    ensures Reached(ps[..j + 1]) == (Reached(ps[..j]) || PageReached(ps[j]))
  {
    TakeOneMore(ps, j);
    if PageReached(ps[j]) {
      assert ps[..j + 1][j] == ps[j];
    }
  }

  /** Pages that all continue the loop yield every sample they carry, in
      order; nothing is skipped or repeated. */
  lemma {:induction false} FullPagesYieldAll(ps: seq<Page>)
    requires forall k | 0 <= k < |ps| :: PageNext(ps[k]).Some?
    ensures |Yielded(ps)| == SampleCount(ps)
  {
    if |ps| > 0 {
      var n := |ps| - 1;
      assert forall k | 0 <= k < n :: ps[..n][k] == ps[k];
      FullPagesYieldAll(ps[..n]);
    }
  }

  /** The samples the pages carry, a missing list counting as none. */
  function SampleCount(ps: seq<Page>): nat
  {
    if |ps| == 0 then 0
    else SampleCount(ps[..|ps| - 1]) + (if ps[|ps| - 1].samples.Some? then |ps[|ps| - 1].samples.value| else 0)
  }

  /** `any_samples` is set exactly when a sample was reached, so it is set
      whenever something was yielded. */
  lemma {:induction false} YieldedReached(ps: seq<Page>)
    ensures |Yielded(ps)| > 0 ==> Reached(ps)
  {
    if |ps| > 0 {
      var n := |ps| - 1;
      YieldedReached(ps[..n]);
      if Reached(ps[..n]) {
        var k :| 0 <= k < n && PageReached(ps[..n][k]);
        assert ps[k] == ps[..n][k];
      }
      if |PageYield(ps[n])| > 0 {
        assert PageReached(ps[n]);
      }
    }
  }
}
