/**
 * The page-token loop that all three listings share: request a page with an
 * absent token, take every item of the page, and request the next page with
 * the token the page carried, until a page carries no (or an empty) token.
 *
 * The remote listing is a finite sequence of responses: the k-th request is
 * answered by the k-th response, whatever token it carried, and the token
 * each request carried is part of the outcome. `Paginate` is the reference
 * definition; the loops of the two scripts are proved against it.
 */
module Paging {
  import opened Wrappers

  /**
   * One answer to one list request. `items` is absent when the response has
   * no `items` field (read as no items); `Fail` stands for the request raising.
   */
  datatype Response<T> = Page(items: Option<seq<T>>, nextPageToken: Option<string>) | Fail

  /** `response.get('items', [])` */
  function ItemsOf<T>(r: Response<T>): seq<T>
    requires r.Page?
  {
    r.items.GetOr([])
  }

  /** `if not next_page_token: break`: an absent or empty token ends the loop. */
  predicate Continues(token: Option<string>)
  {
    token.Some? && token.value != ""
  }

  /** A response after which no further page is requested. */
  predicate Terminal<T>(r: Response<T>)
  {
    r.Fail? || !Continues(r.nextPageToken)
  }

  /** The remote listing is finite: its last response requests nothing further. */
  predicate Ends<T>(rs: seq<Response<T>>)
  {
    |rs| > 0 && Terminal(rs[|rs| - 1])
  }

  /** A remote listing that ends. */
  type Remote<T> = rs: seq<Response<T>> | Ends(rs) witness [Fail]

  /**
   * What a loop gathered: the records in order, the token sent with each
   * request in order, and whether it stopped at a page without a next token
   * (`completed`) rather than at a failed request or a malformed item.
   */
  datatype Listing<U> = Listing(records: seq<U>, requests: seq<Option<string>>, completed: bool)

  /**
   * Converting the items of one page one after the other, as the inner loops
   * do: `convert` answers None where reading an item's fields raises. The
   * result is the converted longest well-formed prefix and whether that prefix
   * is the whole page.
   */
  function ConvertPage<T, U>(items: seq<T>, convert: T -> Option<U>): (r: (seq<U>, bool))
    ensures |r.0| <= |items|
    ensures r.1 <==> |r.0| == |items|
  {
    if |items| == 0 then ([], true)
    else match convert(items[0])
      case None => ([], false)
      case Some(u) =>
        var rest := ConvertPage(items[1..], convert);
        ([u] + rest.0, rest.1)
  }

  /** What a page converts to: the converted longest prefix of well-formed items, stopped by a malformed one. */
  lemma {:induction false} ConvertPagePrefix<T, U>(items: seq<T>, convert: T -> Option<U>)
    ensures var r := ConvertPage(items, convert);
      && (forall k :: 0 <= k < |r.0| ==> convert(items[k]) == Some(r.0[k]))
      && (|r.0| < |items| ==> convert(items[|r.0|]).None?)
  {
    if |items| > 0 && convert(items[0]).Some? {
      ConvertPagePrefix(items[1..], convert);
      var r := ConvertPage(items, convert);
      var rest := ConvertPage(items[1..], convert);
      forall k | 0 <= k < |r.0| ensures convert(items[k]) == Some(r.0[k]) {
        if k > 0 {
          assert items[k] == items[1..][k - 1];
        }
      }
    }
  }

  /**
   * The outcome of the loop over the listing `rs` whose first request carries
   * `token`: a failed request or a malformed item stops it with what was
   * gathered so far; a page whose token does not continue completes it.
   */
  function Paginate<T, U>(rs: seq<Response<T>>, convert: T -> Option<U>, token: Option<string>): (l: Listing<U>)
    requires Ends(rs)
    ensures 1 <= |l.requests| <= |rs| && l.requests[0] == token
    decreases |rs|
  {
    match rs[0]
    case Fail => Listing([], [token], false)
    case Page(_, next) =>
      var page := ConvertPage(ItemsOf(rs[0]), convert);
      if !page.1 then Listing(page.0, [token], false)
      else if !Continues(next) then Listing(page.0, [token], true)
      else
        assert rs[1..][|rs| - 2] == rs[|rs| - 1];
        var rest := Paginate(rs[1..], convert, next);
        Listing(page.0 + rest.records, [token] + rest.requests, rest.completed)
  }

  /** A failed request ends the loop at once. */
  lemma StepFail<T, U>(rs: seq<Response<T>>, k: nat, convert: T -> Option<U>, token: Option<string>)
    requires k < |rs| && Ends(rs[k..]) && rs[k].Fail?
    ensures Paginate(rs[k..], convert, token) == Listing([], [token], false)
  {
    assert rs[k..][0] == rs[k];
  }

  /** A page with a malformed item, or without a next token, ends the loop after its items. */
  lemma StepLast<T, U>(rs: seq<Response<T>>, k: nat, convert: T -> Option<U>, token: Option<string>)
    requires k < |rs| && Ends(rs[k..]) && rs[k].Page?
    requires !ConvertPage(ItemsOf(rs[k]), convert).1 || !Continues(rs[k].nextPageToken)
    ensures var page := ConvertPage(ItemsOf(rs[k]), convert);
      Paginate(rs[k..], convert, token) == Listing(page.0, [token], page.1)
  {
    assert rs[k..][0] == rs[k];
  }

  /** A good page with a next token leaves the rest of the listing to the next request. */
  lemma StepNext<T, U>(rs: seq<Response<T>>, k: nat, convert: T -> Option<U>, token: Option<string>,
                       done: seq<U>, sent: seq<Option<string>>)
    requires k < |rs| && Ends(rs[k..]) && rs[k].Page?
    requires ConvertPage(ItemsOf(rs[k]), convert).1 && Continues(rs[k].nextPageToken)
    ensures k + 1 < |rs| && Ends(rs[k + 1..])
    ensures var page := ConvertPage(ItemsOf(rs[k]), convert);
      var rest := Paginate(rs[k + 1..], convert, rs[k].nextPageToken);
      && Paginate(rs[k..], convert, token) == Listing(page.0 + rest.records, [token] + rest.requests, rest.completed)
      && done + Paginate(rs[k..], convert, token).records == (done + page.0) + rest.records
      && sent + Paginate(rs[k..], convert, token).requests == (sent + [token]) + rest.requests
  {
    assert rs[k..][0] == rs[k];
    assert rs[k..][1..] == rs[k + 1..];
    var page := ConvertPage(ItemsOf(rs[k]), convert);
    var rest := Paginate(rs[k + 1..], convert, rs[k].nextPageToken);
    assert done + (page.0 + rest.records) == (done + page.0) + rest.records;
    assert sent + ([token] + rest.requests) == (sent + [token]) + rest.requests;
  }

  /** One step of an inner loop: item i either extends the converted prefix or is the first malformed one. */
  lemma ConvertStep<T, U>(items: seq<T>, convert: T -> Option<U>, i: nat)
    requires i < |items| && i <= |ConvertPage(items, convert).0|
    ensures var page := ConvertPage(items, convert);
      if convert(items[i]).Some? then
        i < |page.0| && page.0[..i + 1] == page.0[..i] + [convert(items[i]).value]
      else i == |page.0| && !page.1
  {
    var page := ConvertPage(items, convert);
    ConvertPagePrefix(items, convert);
    if convert(items[i]).Some? {
      assert page.0[..i + 1] == page.0[..i] + [page.0[i]];
    }
  }

  // ----- the reference description of a listing -----

  /** Every item of every page of `rs`, in page order (a failed request contributes none). */
  function AllItems<T>(rs: seq<Response<T>>): seq<T>
  {
    if |rs| == 0 then [] else (if rs[0].Fail? then [] else ItemsOf(rs[0])) + AllItems(rs[1..])
  }

  /** `records` are the items `xs` converted one-for-one, in order. */
  ghost predicate ConvertsTo<T, U>(xs: seq<T>, records: seq<U>, convert: T -> Option<U>)
  {
    |xs| == |records| && forall k :: 0 <= k < |xs| ==> convert(xs[k]) == Some(records[k])
  }

  /** A page that was answered and whose every item is well formed. */
  ghost predicate GoodPage<T, U>(r: Response<T>, convert: T -> Option<U>)
  {
    r.Page? && forall x :: x in ItemsOf(r) ==> convert(x).Some?
  }

  /** The first `n` responses are good pages that each carry a next token. */
  ghost predicate Continuing<T, U>(rs: seq<Response<T>>, convert: T -> Option<U>, n: nat)
  {
    n <= |rs| && forall i :: 0 <= i < n ==> GoodPage(rs[i], convert) && Continues(rs[i].nextPageToken)
  }

  /** Request k + 1 carries the token of response k, for the first `n` requests. */
  ghost predicate TokensChained<T>(rs: seq<Response<T>>, requests: seq<Option<string>>, n: nat)
  {
    n <= |rs| + 1 && |requests| == n &&
    forall i :: 0 <= i < n - 1 ==> rs[i].Page? && requests[i + 1] == rs[i].nextPageToken
  }

  lemma ConvertsToAppend<T, U>(xs: seq<T>, ys: seq<T>, a: seq<U>, b: seq<U>, convert: T -> Option<U>)
    requires ConvertsTo(xs, a, convert) && ConvertsTo(ys, b, convert)
    ensures ConvertsTo(xs + ys, a + b, convert)
  {
    forall k | 0 <= k < |xs + ys| ensures convert((xs + ys)[k]) == Some((a + b)[k]) {
      if k >= |xs| {
        assert (xs + ys)[k] == ys[k - |xs|];
      }
    }
  }

  lemma AllItemsStep<T>(rs: seq<Response<T>>, n: nat)
    requires 1 <= n <= |rs|
    ensures AllItems(rs[..n]) == (if rs[0].Fail? then [] else ItemsOf(rs[0])) + AllItems(rs[1..][..n - 1])
  {
    assert rs[..n][1..] == rs[1..][..n - 1];
  }

  lemma GoodPageConverts<T, U>(r: Response<T>, convert: T -> Option<U>)
    requires GoodPage(r, convert)
    ensures ConvertPage(ItemsOf(r), convert).1
    ensures ConvertsTo(ItemsOf(r), ConvertPage(ItemsOf(r), convert).0, convert)
  {
    ConvertPagePrefix(ItemsOf(r), convert);
  }

  /**
   * A listing whose first n - 1 pages are good and continue and whose n-th
   * page is good and carries no next token completes with exactly the items
   * of those n pages, converted in page order, after n requests whose tokens
   * chain page to page. An empty page with a token does not stop it.
   */
  lemma {:induction false} CompleteListing<T, U>(rs: seq<Response<T>>, convert: T -> Option<U>, n: nat, token: Option<string>)
    requires Ends(rs) && 1 <= n <= |rs|
    requires Continuing(rs, convert, n - 1)
    requires GoodPage(rs[n - 1], convert) && !Continues(rs[n - 1].nextPageToken)
    ensures var l := Paginate(rs, convert, token);
      && l.completed
      && ConvertsTo(AllItems(rs[..n]), l.records, convert)
      && l.requests[0] == token
      && TokensChained(rs, l.requests, n)
  {
    var l := Paginate(rs, convert, token);
    GoodPageConverts(rs[0], convert);
    AllItemsStep(rs, n);
    var page := ConvertPage(ItemsOf(rs[0]), convert);
    if n == 1 {
      assert AllItems(rs[..n]) == ItemsOf(rs[0]) + [];
      assert l.records == page.0;
    } else {
      var tail := rs[1..];
      assert tail[|tail| - 1] == rs[|rs| - 1];
      assert Continuing(tail, convert, n - 2) by {
        forall i | 0 <= i < n - 2 ensures GoodPage(tail[i], convert) && Continues(tail[i].nextPageToken) {
          assert tail[i] == rs[i + 1];
        }
      }
      assert tail[n - 2] == rs[n - 1];
      CompleteListing(tail, convert, n - 1, rs[0].nextPageToken);
      var rest := Paginate(tail, convert, rs[0].nextPageToken);
      assert l.records == page.0 + rest.records;
      ConvertsToAppend(ItemsOf(rs[0]), AllItems(tail[..n - 1]), page.0, rest.records, convert);
      assert l.requests == [token] + rest.requests;
      forall i | 0 <= i < n - 1 ensures rs[i].Page? && l.requests[i + 1] == rs[i].nextPageToken {
        if i > 0 {
          assert rs[i] == tail[i - 1];
        }
      }
    }
  }

  /**
   * The converse: a listing completes only in that way, the number of pages
   * read being the number of requests sent.
   */
  lemma {:induction false} CompletedListingIsClean<T, U>(rs: seq<Response<T>>, convert: T -> Option<U>, token: Option<string>)
    requires Ends(rs)
    ensures var l := Paginate(rs, convert, token); var n := |l.requests|;
      l.completed ==>
        && Continuing(rs, convert, n - 1)
        && GoodPage(rs[n - 1], convert)
        && !Continues(rs[n - 1].nextPageToken)
    decreases |rs|
  {
    var l := Paginate(rs, convert, token);
    if l.completed && rs[0].Page? {
      var page := ConvertPage(ItemsOf(rs[0]), convert);
      ConvertPagePrefix(ItemsOf(rs[0]), convert);
      assert page.1;
      assert GoodPage(rs[0], convert) by {
        forall x | x in ItemsOf(rs[0]) ensures convert(x).Some? {
          var k :| 0 <= k < |ItemsOf(rs[0])| && ItemsOf(rs[0])[k] == x;
        }
      }
      if Continues(rs[0].nextPageToken) {
        var tail := rs[1..];
        assert tail[|tail| - 1] == rs[|rs| - 1];
        CompletedListingIsClean(tail, convert, rs[0].nextPageToken);
        var rest := Paginate(tail, convert, rs[0].nextPageToken);
        var m := |rest.requests|;
        assert |l.requests| == m + 1;
        forall i | 0 <= i < m ensures GoodPage(rs[i], convert) && Continues(rs[i].nextPageToken) {
          if i > 0 {
            assert rs[i] == tail[i - 1];
          }
        }
        assert rs[m] == tail[m - 1];
      }
    }
  }

  /**
   * A request that fails after k good, continuing pages ends the loop with
   * exactly the converted items of those k pages, after k + 1 requests.
   */
  lemma {:induction false} FailedRequestKeepsEarlierPages<T, U>(rs: seq<Response<T>>, convert: T -> Option<U>, k: nat, token: Option<string>)
    requires Ends(rs) && k < |rs|
    requires Continuing(rs, convert, k) && rs[k].Fail?
    ensures var l := Paginate(rs, convert, token);
      && !l.completed
      && ConvertsTo(AllItems(rs[..k]), l.records, convert)
      && l.requests[0] == token
      && TokensChained(rs, l.requests, k + 1)
    decreases k
  {
    var l := Paginate(rs, convert, token);
    if k > 0 {
      GoodPageConverts(rs[0], convert);
      AllItemsStep(rs, k);
      var page := ConvertPage(ItemsOf(rs[0]), convert);
      var tail := rs[1..];
      assert tail[|tail| - 1] == rs[|rs| - 1];
      assert Continuing(tail, convert, k - 1) by {
        forall i | 0 <= i < k - 1 ensures GoodPage(tail[i], convert) && Continues(tail[i].nextPageToken) {
          assert tail[i] == rs[i + 1];
        }
      }
      assert tail[k - 1] == rs[k];
      FailedRequestKeepsEarlierPages(tail, convert, k - 1, rs[0].nextPageToken);
      var rest := Paginate(tail, convert, rs[0].nextPageToken);
      ConvertsToAppend(ItemsOf(rs[0]), AllItems(tail[..k - 1]), page.0, rest.records, convert);
      forall i | 0 <= i < k ensures rs[i].Page? && l.requests[i + 1] == rs[i].nextPageToken {
        if i > 0 {
          assert rs[i] == tail[i - 1];
        }
      }
    } else {
      assert rs[..k] == [];
    }
  }

  /**
   * A malformed item on page k, after k good, continuing pages, ends the loop
   * with the items of those pages followed by the well-formed items that come
   * before it on page k.
   */
  lemma {:induction false} MalformedItemKeepsEarlierItems<T, U>(rs: seq<Response<T>>, convert: T -> Option<U>, k: nat, token: Option<string>)
    requires Ends(rs) && k < |rs|
    requires Continuing(rs, convert, k) && rs[k].Page? && !GoodPage(rs[k], convert)
    ensures var l := Paginate(rs, convert, token); var before := |AllItems(rs[..k])|;
      && !l.completed
      && before <= |l.records|
      && ConvertsTo(AllItems(rs[..k]), l.records[..before], convert)
      && l.records[before..] == ConvertPage(ItemsOf(rs[k]), convert).0
      && |l.records[before..]| < |ItemsOf(rs[k])|
      && TokensChained(rs, l.requests, k + 1)
    decreases k
  {
    var l := Paginate(rs, convert, token);
    if k > 0 {
      GoodPageConverts(rs[0], convert);
      AllItemsStep(rs, k);
      var page := ConvertPage(ItemsOf(rs[0]), convert);
      var tail := rs[1..];
      assert tail[|tail| - 1] == rs[|rs| - 1];
      assert Continuing(tail, convert, k - 1) by {
        forall i | 0 <= i < k - 1 ensures GoodPage(tail[i], convert) && Continues(tail[i].nextPageToken) {
          assert tail[i] == rs[i + 1];
        }
      }
      assert tail[k - 1] == rs[k];
      MalformedItemKeepsEarlierItems(tail, convert, k - 1, rs[0].nextPageToken);
      var rest := Paginate(tail, convert, rs[0].nextPageToken);
      var restBefore := |AllItems(tail[..k - 1])|;
      assert l.records == page.0 + rest.records;
      assert l.records[..|page.0| + restBefore] == page.0 + rest.records[..restBefore];
      assert l.records[|page.0| + restBefore..] == rest.records[restBefore..];
      ConvertsToAppend(ItemsOf(rs[0]), AllItems(tail[..k - 1]), page.0, rest.records[..restBefore], convert);
      forall i | 0 <= i < k ensures rs[i].Page? && l.requests[i + 1] == rs[i].nextPageToken {
        if i > 0 {
          assert rs[i] == tail[i - 1];
        }
      }
    } else {
      assert rs[..k] == [];
      ConvertPagePrefix(ItemsOf(rs[0]), convert);
    }
  }

  /** A page with no items but a next token only passes its token on to the next request. */
  lemma EmptyPageContinues<T, U>(r: Response<T>, rest: seq<Response<T>>, convert: T -> Option<U>, token: Option<string>)
    requires Ends(rest) && r.Page? && ItemsOf(r) == [] && Continues(r.nextPageToken)
    ensures Ends([r] + rest)
    ensures var l := Paginate([r] + rest, convert, token); var m := Paginate(rest, convert, r.nextPageToken);
      l.records == m.records && l.completed == m.completed && l.requests == [token] + m.requests
  {
    assert ([r] + rest)[1..] == rest;
    assert ([r] + rest)[|rest|] == rest[|rest| - 1];
  }

  /** Responses after the one that ends the loop are never requested and do not matter. */
  lemma {:induction false} LaterResponsesUnread<T, U>(rs: seq<Response<T>>, more: seq<Response<T>>, convert: T -> Option<U>, token: Option<string>)
    requires Ends(rs)
    ensures Ends(rs + more) ==> Paginate(rs + more, convert, token) == Paginate(rs, convert, token)
    decreases |rs|
  {
    var all := rs + more;
    if Ends(all) {
      assert all[0] == rs[0];
      if rs[0].Page? && ConvertPage(ItemsOf(rs[0]), convert).1 && Continues(rs[0].nextPageToken) {
        var tail := rs[1..];
        assert tail[|tail| - 1] == rs[|rs| - 1];
        assert all[1..] == tail + more;
        LaterResponsesUnread(tail, more, convert, rs[0].nextPageToken);
      }
    }
  }
}
