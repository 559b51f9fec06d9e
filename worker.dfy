/** The worker's entry point and `handleCard`: which requests are served as cards, and,
    given what the static-asset binding returns for the page and for `/artisans.json`,
    whether the page is passed through untouched, rewritten for an artisan, or the
    request fails with an exception. The two asset fetches are parameters: the page as
    the binding returns it for the request, and the data file as it returns it. */
module Worker {
  import opened Options
  import opened Strings
  import opened Artisans
  import opened CardFields
  import opened Handlers
  import opened Rewrite

  /** A request after `new URL(request.url)`: the full URL, its path, and the first `id`
      query parameter (`searchParams.get('id')`), `None` when there is none. */
  datatype Request = Request(href: string, pathname: string, id: Option<string>)

  /** A response of the page: its `ok` flag and its document. */
  datatype Page = Page(ok: bool, doc: seq<Element>)

  /** What `dataRes.json()` and `data.artisans` give: text that is not JSON, JSON without
      an `artisans` array, or the array's records. */
  datatype DataBody = NotJson | NoArtisanArray | ArtisanArray(artisans: seq<Artisan>)

  datatype DataResponse = DataResponse(ok: bool, body: DataBody)

  /** The exceptions `handleCard` lets escape. */
  datatype Failure =
    | JsonSyntaxError     // `dataRes.json()` rejects
    | ArtisansNotArray    // `data.artisans.find` is not a function
    | TaglineNotString    // `artisan.tagline.split` is not a function
    | TitleHandlerRejected  // the runtime refuses a handler whose `text` is not a function

  datatype Outcome =
    | Passthrough(page: Page)   // the asset response, returned as it is
    | Rewritten(page: Page)     // the page after the card's rewrite
    | Thrown(failure: Failure)

  const CardPath := "/card.html"

  /** The routing test: the path ends with `/card.html` and `id` is present and non-empty
      (an empty string is falsy). */
  predicate IsCardRequest(req: Request) {
    EndsWith(req.pathname, CardPath) && req.id.Some? && req.id.value != ""
  }

  /** `data.artisans.find(a => a.id === id) || null` for a data response, or the exception
      reading it raises; a response that is not `ok` is not read and finds nothing. */
  function LookUp(id: string, data: DataResponse): (r: Result<Option<Artisan>, Failure>)
    ensures !data.ok ==> r == Ok(None)
    ensures r.Ok? && r.value.Some? ==> data.body.ArtisanArray? && r.value.value in data.body.artisans && HasId(r.value.value, id)
    ensures r.Err? <==> data.ok && !data.body.ArtisanArray?
    ensures data.ok && data.body.ArtisanArray? ==> r == Ok(Find(data.body.artisans, id))
  {
    if !data.ok then Ok(None)
    else match data.body
      case NotJson => Err(JsonSyntaxError)
      case NoArtisanArray => Err(ArtisansNotArray)
      case ArtisanArray(artisans) =>
        FindIsFirstMatch(artisans, id);
        Ok(Find(artisans, id))
  }

  /** `handleCard` once both fetches have completed. */
  function HandleCard(id: string, href: string, html: Page, data: DataResponse): (r: Outcome)
    ensures !html.ok ==> r == Passthrough(html)
    ensures r.Passthrough? ==> r.page == html
    ensures r.Rewritten? ==> r.page.ok && |r.page.doc| == |html.doc|
  {
    if !html.ok then Passthrough(html)
    else match LookUp(id, data)
      case Err(e) => Thrown(e)
      case Ok(None) => Passthrough(html)
      case Ok(Some(a)) =>
        match Derive(a, href)
        case None => Thrown(TaglineNotString)
        case Some(f) => Rewritten(Page(html.ok, Transform(html.doc, CardDirectives(f))))
  }

  /** The worker's `fetch`: card requests go to `handleCard`, every other request gets the
      asset response as it is. */
  function Fetch(req: Request, html: Page, data: DataResponse): (r: Outcome)
    ensures !IsCardRequest(req) ==> r == Passthrough(html)
  {
    if IsCardRequest(req) then HandleCard(req.id.value, req.href, html, data) else Passthrough(html)
  }

  /** Which requests are cards: the path must end with the whole segment `/card.html`, so
      a card page in a sub-directory counts but `/mycard.html` and `/card.html/` do not,
      and a missing or empty `id` sends the request to the static assets. */
  lemma RoutingExamples()
    ensures IsCardRequest(Request("https://x/card.html?id=hana", "/card.html", Some("hana")))
    ensures IsCardRequest(Request("https://x/shop/card.html?id=7", "/shop/card.html", Some("7")))
    ensures !IsCardRequest(Request("https://x/mycard.html?id=7", "/mycard.html", Some("7")))
    ensures !IsCardRequest(Request("https://x/card.html/?id=7", "/card.html/", Some("7")))
    ensures !IsCardRequest(Request("https://x/card.html?id=", "/card.html", Some("")))
    ensures !IsCardRequest(Request("https://x/card.html", "/card.html", None))
  {
    var p := "/mycard.html";
    assert p[|p| - |CardPath|..][0] == 'y';
    var q := "/card.html/";
    assert q[|q| - |CardPath|..][0] == 'c';
  }

  /** Every outcome of a card request, by case: the page passes through when its response
      is not `ok` or no record has the id; the request fails when the data is not JSON,
      has no `artisans` array, or the record's tagline is not a string; otherwise the page
      is rewritten with the fields derived from the first record with the id. */
  lemma CardOutcomes(req: Request, html: Page, data: DataResponse)
    requires IsCardRequest(req)
    ensures var r := Fetch(req, html, data);
      var found := data.ok && data.body.ArtisanArray? && Find(data.body.artisans, req.id.value).Some?;
      && (r.Passthrough? <==> !html.ok || !data.ok || (data.body.ArtisanArray? && !found))
      && (r.Thrown? <==> (html.ok && data.ok &&
            (!data.body.ArtisanArray? || (found && !Find(data.body.artisans, req.id.value).value.tagline.Text?))))
      && (r.Rewritten? <==> html.ok && found && Find(data.body.artisans, req.id.value).value.tagline.Text?)
      && (r.Rewritten? ==> r.page == Page(true, Transform(html.doc, CardDirectives(
            Derive(Find(data.body.artisans, req.id.value).value, req.href).value))))
  {
  }

  /** An error page (a response that is not `ok`) is returned as it is, whatever the
      data file holds, even when the data file could not be parsed. */
  lemma ErrorPagePassesThrough(req: Request, html: Page, data: DataResponse)
    requires !html.ok
    ensures Fetch(req, html, data) == Passthrough(html)
  {
  }

  /** A data response that is not `ok` is treated like a list without the artisan: the
      page is served as it is. */
  lemma DataErrorIsNotFound(req: Request, html: Page, body: DataBody)
    ensures Fetch(req, html, DataResponse(false, body)) == Fetch(req, html, DataResponse(true, ArtisanArray([])))
    ensures Fetch(req, html, DataResponse(false, body)) == Passthrough(html)
  {
  }

  /** Malformed data is not treated as "not found": a card request with an `ok` page
      and an `ok` data response that is not JSON fails. */
  lemma MalformedDataThrows(req: Request, html: Page)
    requires IsCardRequest(req) && html.ok
    ensures Fetch(req, html, DataResponse(true, NotJson)) == Thrown(JsonSyntaxError)
    ensures Fetch(req, html, DataResponse(true, NoArtisanArray)) == Thrown(ArtisansNotArray)
  {
  }

  /** Records after the first one with the requested id never influence the reply. */
  lemma LaterRecordsIgnored(req: Request, html: Page, front: seq<Artisan>, back: seq<Artisan>)
    requires IsCardRequest(req)
    requires exists i :: 0 <= i < |front| && HasId(front[i], req.id.value)
    ensures Fetch(req, html, DataResponse(true, ArtisanArray(front + back)))
         == Fetch(req, html, DataResponse(true, ArtisanArray(front)))
  {
    FindIsFirstMatch(front, req.id.value);
    FindAppend(front, back, req.id.value);
  }

  /** On a rewritten card page, each `<meta property="og:url">` (without
      `name="description"`) carries the request's full URL, each `og:image` the record's
      avatar or the empty string, and every element matching no registered selector is
      as it was. */
  lemma RewrittenPageFields(req: Request, html: Page, artisans: seq<Artisan>, i: nat)
    requires IsCardRequest(req) && html.ok
    requires Find(artisans, req.id.value).Some? && Find(artisans, req.id.value).value.tagline.Text?
    requires i < |html.doc|
    ensures var r := Fetch(req, html, DataResponse(true, ArtisanArray(artisans)));
      var e := html.doc[i];
      var a := Find(artisans, req.id.value).value;
      && r.Rewritten?
      && (Matches(OgUrlSelector, e) && !Matches(DescriptionSelector, e) ==> "content" in r.page.doc[i].attrs && r.page.doc[i].attrs["content"] == req.href)
      && (Matches(OgImageSelector, e) && !Matches(DescriptionSelector, e) ==> "content" in r.page.doc[i].attrs && r.page.doc[i].attrs["content"] == OrEmpty(a.avatar))
      && (LastContent(e, Derive(a, req.href).value).None? && !Matches(TitleSelector, e) ==> r.page.doc[i] == e)
  {
    var a := Find(artisans, req.id.value).value;
    var f := Derive(a, req.href).value;
    TransformElement(html.doc, f, i);
    ContentPrecedence(html.doc[i], f);
  }

  /** On a rewritten card page with any `<title>` text, the title text reads
      `name | title` once, however many `<title>` elements and chunks the page has. */
  lemma RewrittenPageTitle(req: Request, html: Page, artisans: seq<Artisan>)
    requires IsCardRequest(req) && html.ok
    requires Find(artisans, req.id.value).Some? && Find(artisans, req.id.value).value.tagline.Text?
    requires TitleChunks(html.doc) != []
    ensures var r := Fetch(req, html, DataResponse(true, ArtisanArray(artisans)));
      var a := Find(artisans, req.id.value).value;
      r.Rewritten? && Concat(TitleChunks(r.page.doc)) == Interpolate(a.name) + " | " + Interpolate(a.title)
  {
    var a := Find(artisans, req.id.value).value;
    TransformTitleOnce(html.doc, Derive(a, req.href).value);
  }

  // ---- The code as written ----

  /** As written, the handler registered for `title` has a string where its `text`
      callback should be (see `Shadowing`). What the runtime then does is not part of this
      model; the two plausible readings are that it refuses the handler, so `.on` throws,
      or that it treats the handler as having no text callback. */
  datatype TextMemberReading = RefusesHandler | SkipsTextMember

  /** `handleCard` as written, under either reading. Every path that does not reach the
      rewrite is the same as in `HandleCard`. */
  function HandleCardAsWritten(id: string, href: string, html: Page, data: DataResponse,
                               reading: TextMemberReading): (r: Outcome)
    ensures !HandleCard(id, href, html, data).Rewritten? ==> r == HandleCard(id, href, html, data)
    ensures HandleCard(id, href, html, data).Rewritten? ==>
      if reading == RefusesHandler then r == Thrown(TitleHandlerRejected) else r.Rewritten?
  {
    if !html.ok then Passthrough(html)
    else match LookUp(id, data)
      case Err(e) => Thrown(e)
      case Ok(None) => Passthrough(html)
      case Ok(Some(a)) =>
        match Derive(a, href)
        case None => Thrown(TaglineNotString)
        case Some(f) =>
          if reading == RefusesHandler then Thrown(TitleHandlerRejected)
          else Rewritten(Page(html.ok, Transform(html.doc, CardDirectives(f)[1..])))
  }

  /** The worker's `fetch` as written. */
  function FetchAsWritten(req: Request, html: Page, data: DataResponse, reading: TextMemberReading): (r: Outcome)
    ensures !IsCardRequest(req) ==> r == Passthrough(html)
  {
    if IsCardRequest(req) then HandleCardAsWritten(req.id.value, req.href, html, data, reading) else Passthrough(html)
  }

  /** What the hidden callback costs. Requests that `Fetch` does not rewrite get the same
      reply as written. Those it rewrites either fail, meta tags included, or get the
      rewritten page with every element's text as the asset had it, so the `<title>` is
      not rewritten. */
  lemma AsWrittenOutcomes(req: Request, html: Page, data: DataResponse)
    ensures !Fetch(req, html, data).Rewritten? ==>
      FetchAsWritten(req, html, data, RefusesHandler) == Fetch(req, html, data) &&
      FetchAsWritten(req, html, data, SkipsTextMember) == Fetch(req, html, data)
    ensures Fetch(req, html, data).Rewritten? ==>
      FetchAsWritten(req, html, data, RefusesHandler) == Thrown(TitleHandlerRejected)
    ensures Fetch(req, html, data).Rewritten? ==>
      var intended := Fetch(req, html, data).page.doc;
      var r := FetchAsWritten(req, html, data, SkipsTextMember);
      && r.Rewritten? && |r.page.doc| == |html.doc|
      && (forall i :: 0 <= i < |html.doc| ==> r.page.doc[i] == intended[i].(text := html.doc[i].text))
      && TitleChunks(r.page.doc) == TitleChunks(html.doc)
  {
    if Fetch(req, html, data).Rewritten? {
      var a := Find(data.body.artisans, req.id.value).value;
      TransformWithoutTitle(html.doc, Derive(a, req.href).value);
    }
  }
}
