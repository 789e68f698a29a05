/**
 * listAll in backend/filejump/filejump.go: the paginated listing loop that filters a
 * folder's entries, hands each survivor to a callback and stops early when the callback
 * asks it to.
 */
module Listing {
  import opened Wrappers
  import opened Errors
  import opened Api

  /** The listing endpoint for one folder: the optional `page` parameter to the decoded page or an error. */
  type Fetch = Option<nat> -> Result<FileEntries, Error>

  /** The filter of listAll: folders unless filesOnly, everything else unless directoriesOnly. */
  predicate Selected(item: Item, directoriesOnly: bool, filesOnly: bool)
  {
    if item.itemType == ItemTypeFolder then !filesOnly else !directoriesOnly
  }

  /** The item as the callback sees it: its name translated by the encoder's ToStandardName. */
  function Decoded(item: Item, toStandard: string -> string): (d: Item)
    ensures d.itemType == item.itemType && d.id == item.id
  {
    item.(name := toStandard(item.name))
  }

  /** The items of one page that pass the filter, decoded, in array order. */
  function Survivors(items: seq<Item>, toStandard: string -> string, directoriesOnly: bool, filesOnly: bool)
    : (r: seq<Item>)
    ensures |r| <= |items|
    decreases |items|
  {
    if items == [] then []
    else
      Survivors(items[..|items| - 1], toStandard, directoriesOnly, filesOnly)
        + (if Selected(items[|items| - 1], directoriesOnly, filesOnly) then [Decoded(items[|items| - 1], toStandard)] else [])
  }

  /** Survivors keeps only selected items. */
  lemma {:induction false} SurvivorsSelected(items: seq<Item>, toStandard: string -> string, directoriesOnly: bool,
                                             filesOnly: bool)
    ensures forall x :: x in Survivors(items, toStandard, directoriesOnly, filesOnly) ==>
      Selected(x, directoriesOnly, filesOnly)
    decreases |items|
  {
    if items != [] {
      SurvivorsSelected(items[..|items| - 1], toStandard, directoriesOnly, filesOnly);
    }
  }

  /** Survivors keeps each selected item, decoded. */
  lemma {:induction false} SurvivorsComplete(items: seq<Item>, toStandard: string -> string, directoriesOnly: bool,
                                             filesOnly: bool)
    ensures forall i :: 0 <= i < |items| && Selected(items[i], directoriesOnly, filesOnly) ==>
      Decoded(items[i], toStandard) in Survivors(items, toStandard, directoriesOnly, filesOnly)
    decreases |items|
  {
    if items != [] {
      var init := items[..|items| - 1];
      SurvivorsComplete(init, toStandard, directoriesOnly, filesOnly);
      assert forall i :: 0 <= i < |init| ==> init[i] == items[i];
    }
  }

  /** Without either flag Survivors is the whole page, decoded, in array order. */
  lemma {:induction false} SurvivorsAll(items: seq<Item>, toStandard: string -> string)
    ensures Survivors(items, toStandard, false, false) == seq(|items|, i requires 0 <= i < |items| => Decoded(items[i], toStandard))
    decreases |items|
  {
    if items != [] {
      var init := items[..|items| - 1];
      SurvivorsAll(init, toStandard);
      assert forall i :: 0 <= i < |init| ==> init[i] == items[i];
    }
  }

  /** Survivors keeps exactly the selected items: none of the others, and each selected one, decoded. */
  lemma SurvivorsFilter(items: seq<Item>, toStandard: string -> string, directoriesOnly: bool, filesOnly: bool)
    ensures forall x :: x in Survivors(items, toStandard, directoriesOnly, filesOnly) ==>
      Selected(x, directoriesOnly, filesOnly)
    ensures forall i :: 0 <= i < |items| && Selected(items[i], directoriesOnly, filesOnly) ==>
      Decoded(items[i], toStandard) in Survivors(items, toStandard, directoriesOnly, filesOnly)
  {
    SurvivorsSelected(items, toStandard, directoriesOnly, filesOnly);
    SurvivorsComplete(items, toStandard, directoriesOnly, filesOnly);
  }

  /** Some element of s makes the callback return true. */
  predicate Stops(s: seq<Item>, fn: Item -> bool)
  {
    exists i :: 0 <= i < |s| && fn(s[i])
  }

  /** The prefix of s the callback is given: up to and including the first element it accepts. */
  function TakeThrough(s: seq<Item>, fn: Item -> bool): (r: seq<Item>)
    ensures |r| <= |s| && r == s[..|r|]
    ensures Stops(s, fn) ==> r != [] && fn(r[|r| - 1]) && forall j :: 0 <= j < |r| - 1 ==> !fn(r[j])
    ensures !Stops(s, fn) ==> r == s
    decreases |s|
  {
    if s == [] then []
    else if fn(s[0]) then [s[0]]
    else
      var rest := TakeThrough(s[1..], fn);
      assert Stops(s, fn) ==> Stops(s[1..], fn) by {
        if Stops(s, fn) {
          var i :| 0 <= i < |s| && fn(s[i]);
          assert i != 0 && fn(s[1..][i - 1]);
        }
      }
      assert !Stops(s, fn) ==> !Stops(s[1..], fn) by {
        if Stops(s[1..], fn) {
          var i :| 0 <= i < |s[1..]| && fn(s[1..][i]);
          assert fn(s[i + 1]);
        }
      }
      [s[0]] + rest
  }

  /**
   * Whether the listing, followed from `page`, ends within fuel requests: at a failed request,
   * at a page on which the callback accepts a filtered item, or at a page without a next page.
   */
  ghost predicate ChainEnds(fetch: Fetch, toStandard: string -> string, directoriesOnly: bool, filesOnly: bool,
                            fn: Item -> bool, page: Option<nat>, fuel: nat)
    decreases fuel
  {
    fuel > 0 &&
    match fetch(page)
    case Failure(_) => true
    case Success(p) =>
      || Stops(Survivors(p.data, toStandard, directoriesOnly, filesOnly), fn)
      || p.nextPage.None?
      || ChainEnds(fetch, toStandard, directoriesOnly, filesOnly, fn, p.nextPage, fuel - 1)
  }

  /** What listAll leaves behind: `found`, the items handed to the callback, the `page` parameters requested, the error. */
  /** When the callback accepts an element, TakeThrough ends at the first one it accepts. */
  lemma TakeThroughFirst(s: seq<Item>, fn: Item -> bool)
    requires Stops(s, fn)
    ensures var r := TakeThrough(s, fn);
      && 0 < |r| <= |s| && r == s[..|r|] && fn(s[|r| - 1])
      && forall j :: 0 <= j < |r| - 1 ==> !fn(s[j])
  {
    var r := TakeThrough(s, fn);
    assert forall j :: 0 <= j < |r| ==> r[j] == s[j];
  }

  datatype Listed = Listed(found: bool, handed: seq<Item>, requests: seq<Option<nat>>, err: Option<Error>)

  /** The listing that starts with `page`, one request per step. */
  function Walk(fetch: Fetch, toStandard: string -> string, directoriesOnly: bool, filesOnly: bool,
                fn: Item -> bool, page: Option<nat>, fuel: nat): Listed
    requires ChainEnds(fetch, toStandard, directoriesOnly, filesOnly, fn, page, fuel)
    decreases fuel
  {
    match fetch(page)
    case Failure(e) => Listed(false, [], [page], Some(Wrapped("couldn't list files: ", e)))
    case Success(p) =>
      var s := Survivors(p.data, toStandard, directoriesOnly, filesOnly);
      if Stops(s, fn) then Listed(true, TakeThrough(s, fn), [page], None)
      else if p.nextPage.None? then Listed(false, s, [page], None)
      else
        var rest := Walk(fetch, toStandard, directoriesOnly, filesOnly, fn, p.nextPage, fuel - 1);
        Listed(rest.found, s + rest.handed, [page] + rest.requests, rest.err)
  }

  /** The survivors of every successfully fetched page among requests, in request order. */
  function AllSurvivors(fetch: Fetch, toStandard: string -> string, directoriesOnly: bool, filesOnly: bool,
                        requests: seq<Option<nat>>): seq<Item>
    decreases |requests|
  {
    if requests == [] then []
    else
      (match fetch(requests[0])
       case Failure(_) => []
       case Success(p) => Survivors(p.data, toStandard, directoriesOnly, filesOnly))
      + AllSurvivors(fetch, toStandard, directoriesOnly, filesOnly, requests[1..])
  }

  /** Each request after the first asks for the next page the previous response announced. */
  ghost predicate IsChain(fetch: Fetch, requests: seq<Option<nat>>)
  {
    forall k :: 0 <= k < |requests| - 1 ==>
      fetch(requests[k]).Success? && fetch(requests[k]).value.nextPage.Some? &&
      fetch(requests[k]).value.nextPage == requests[k + 1]
  }

  /** Every request but the last got a page on which the callback accepted nothing: the listing went on only then. */
  ghost predicate NoneAcceptedBefore(fetch: Fetch, toStandard: string -> string, directoriesOnly: bool, filesOnly: bool,
                                     fn: Item -> bool, requests: seq<Option<nat>>)
  {
    forall k :: 0 <= k < |requests| - 1 ==>
      fetch(requests[k]).Success? &&
      !Stops(Survivors(fetch(requests[k]).value.data, toStandard, directoriesOnly, filesOnly), fn)
  }

  /** How the last request ended the listing. */
  ghost predicate EndedProperly(fetch: Fetch, toStandard: string -> string, directoriesOnly: bool, filesOnly: bool,
                                fn: Item -> bool, w: Listed)
    requires w.requests != []
  {
    var last := w.requests[|w.requests| - 1];
    && (w.err.Some? <==> fetch(last).Failure?)
    && (w.err.Some? ==> w.err == Some(Wrapped("couldn't list files: ", fetch(last).error)))
    && (w.found ==> fetch(last).Success? && Stops(Survivors(fetch(last).value.data, toStandard, directoriesOnly, filesOnly), fn))
    && (w.err.None? && !w.found ==> fetch(last).Success? && fetch(last).value.nextPage.None?)
  }

  lemma {:induction false} StopsAppend(a: seq<Item>, b: seq<Item>, fn: Item -> bool)
    ensures Stops(a + b, fn) <==> Stops(a, fn) || Stops(b, fn)
  {
    if Stops(a + b, fn) {
      var i :| 0 <= i < |a + b| && fn((a + b)[i]);
      if i >= |a| {
        assert fn(b[i - |a|]);
      } else {
        assert fn(a[i]);
      }
    }
    if Stops(a, fn) {
      var i :| 0 <= i < |a| && fn(a[i]);
      assert fn((a + b)[i]);
    }
    if Stops(b, fn) {
      var i :| 0 <= i < |b| && fn(b[i]);
      assert fn((a + b)[|a| + i]);
    }
  }

  lemma {:induction false} TakeThroughAppend(a: seq<Item>, b: seq<Item>, fn: Item -> bool)
    requires !Stops(a, fn)
    ensures TakeThrough(a + b, fn) == a + TakeThrough(b, fn)
    decreases |a|
  {
    if a == [] {
      assert a + b == b;
    } else {
      assert !fn(a[0]);
      assert (a + b)[0] == a[0];
      assert (a + b)[1..] == a[1..] + b;
      TakeThroughAppend(a[1..], b, fn);
      assert TakeThrough(a + b, fn) == [a[0]] + TakeThrough((a + b)[1..], fn);
      assert [a[0]] + (a[1..] + TakeThrough(b, fn)) == a + TakeThrough(b, fn);
    }
  }

  /** The number of requests does not change the outcome once the chain has ended. */
  lemma {:induction false} WalkFuel(fetch: Fetch, toStandard: string -> string, directoriesOnly: bool, filesOnly: bool,
                                    fn: Item -> bool, page: Option<nat>, m: nat, n: nat)
    requires ChainEnds(fetch, toStandard, directoriesOnly, filesOnly, fn, page, m)
    requires ChainEnds(fetch, toStandard, directoriesOnly, filesOnly, fn, page, n)
    ensures Walk(fetch, toStandard, directoriesOnly, filesOnly, fn, page, m)
         == Walk(fetch, toStandard, directoriesOnly, filesOnly, fn, page, n)
    decreases m
  {
    match fetch(page)
    case Failure(_) =>
    case Success(p) =>
      if !Stops(Survivors(p.data, toStandard, directoriesOnly, filesOnly), fn) && p.nextPage.Some? {
        WalkFuel(fetch, toStandard, directoriesOnly, filesOnly, fn, p.nextPage, m - 1, n - 1);
      }
  }

  /** The requests of a walk: `page` first, then each announced next page. */
  lemma {:induction false} WalkRequests(fetch: Fetch, toStandard: string -> string, directoriesOnly: bool,
                                        filesOnly: bool, fn: Item -> bool, page: Option<nat>, fuel: nat)
    requires ChainEnds(fetch, toStandard, directoriesOnly, filesOnly, fn, page, fuel)
    ensures var w := Walk(fetch, toStandard, directoriesOnly, filesOnly, fn, page, fuel);
      && w.requests != [] && w.requests[0] == page
      && IsChain(fetch, w.requests)
    decreases fuel
  {
    var w := Walk(fetch, toStandard, directoriesOnly, filesOnly, fn, page, fuel);
    match fetch(page)
    case Failure(e) =>
    case Success(p) =>
      var s := Survivors(p.data, toStandard, directoriesOnly, filesOnly);
      if !Stops(s, fn) && p.nextPage.Some? {
        var rest := Walk(fetch, toStandard, directoriesOnly, filesOnly, fn, p.nextPage, fuel - 1);
        WalkRequests(fetch, toStandard, directoriesOnly, filesOnly, fn, p.nextPage, fuel - 1);
        assert w.requests == [page] + rest.requests;
        forall k | 0 <= k < |w.requests| - 1
          ensures fetch(w.requests[k]).Success? && fetch(w.requests[k]).value.nextPage.Some?
          ensures fetch(w.requests[k]).value.nextPage == w.requests[k + 1]
        {
          if k > 0 {
            assert w.requests[k] == rest.requests[k - 1] && w.requests[k + 1] == rest.requests[k];
          }
        }
      }
  }

  /** The early exit of a walk: no request follows a page on which the callback accepted an item. */
  lemma {:induction false} WalkContinues(fetch: Fetch, toStandard: string -> string, directoriesOnly: bool,
                                         filesOnly: bool, fn: Item -> bool, page: Option<nat>, fuel: nat)
    requires ChainEnds(fetch, toStandard, directoriesOnly, filesOnly, fn, page, fuel)
    ensures var w := Walk(fetch, toStandard, directoriesOnly, filesOnly, fn, page, fuel);
      NoneAcceptedBefore(fetch, toStandard, directoriesOnly, filesOnly, fn, w.requests)
    decreases fuel
  {
    var w := Walk(fetch, toStandard, directoriesOnly, filesOnly, fn, page, fuel);
    match fetch(page)
    case Failure(e) =>
    case Success(p) =>
      var s := Survivors(p.data, toStandard, directoriesOnly, filesOnly);
      if !Stops(s, fn) && p.nextPage.Some? {
        var rest := Walk(fetch, toStandard, directoriesOnly, filesOnly, fn, p.nextPage, fuel - 1);
        WalkContinues(fetch, toStandard, directoriesOnly, filesOnly, fn, p.nextPage, fuel - 1);
        assert w.requests == [page] + rest.requests;
        forall k | 0 <= k < |w.requests| - 1
          ensures fetch(w.requests[k]).Success?
          ensures !Stops(Survivors(fetch(w.requests[k]).value.data, toStandard, directoriesOnly, filesOnly), fn)
        {
          if k > 0 {
            assert w.requests[k] == rest.requests[k - 1];
          }
        }
      }
  }

  /** How a listing ended depends only on its last request, its error and whether it found something. */
  lemma EndedLikeLast(fetch: Fetch, toStandard: string -> string, directoriesOnly: bool, filesOnly: bool,
                      fn: Item -> bool, v: Listed, w: Listed)
    requires v.requests != [] && EndedProperly(fetch, toStandard, directoriesOnly, filesOnly, fn, v)
    requires |w.requests| > |v.requests| && w.requests[|w.requests| - |v.requests|..] == v.requests
    requires w.err == v.err && w.found == v.found
    ensures EndedProperly(fetch, toStandard, directoriesOnly, filesOnly, fn, w)
  {
    assert w.requests[|w.requests| - 1] == v.requests[|v.requests| - 1];
  }

  /** The last request of a walk ends the listing: a failure, an accepted item, or no next page. */
  lemma {:induction false} WalkEnds(fetch: Fetch, toStandard: string -> string, directoriesOnly: bool,
                                    filesOnly: bool, fn: Item -> bool, page: Option<nat>, fuel: nat)
    requires ChainEnds(fetch, toStandard, directoriesOnly, filesOnly, fn, page, fuel)
    ensures var w := Walk(fetch, toStandard, directoriesOnly, filesOnly, fn, page, fuel);
      w.requests != [] && EndedProperly(fetch, toStandard, directoriesOnly, filesOnly, fn, w)
    decreases fuel
  {
    var w := Walk(fetch, toStandard, directoriesOnly, filesOnly, fn, page, fuel);
    match fetch(page)
    case Failure(e) =>
    case Success(p) =>
      var s := Survivors(p.data, toStandard, directoriesOnly, filesOnly);
      if !Stops(s, fn) && p.nextPage.Some? {
        var rest := Walk(fetch, toStandard, directoriesOnly, filesOnly, fn, p.nextPage, fuel - 1);
        WalkEnds(fetch, toStandard, directoriesOnly, filesOnly, fn, p.nextPage, fuel - 1);
        assert w == Listed(rest.found, s + rest.handed, [page] + rest.requests, rest.err);
        EndedLikeLast(fetch, toStandard, directoriesOnly, filesOnly, fn, rest, w);
      }
  }

  /**
   * What a walk hands the callback: the filtered items of the requested pages in order, up to
   * the first one it accepts; found exactly when it accepted one, and then without error.
   */
  lemma {:induction false} WalkHanded(fetch: Fetch, toStandard: string -> string, directoriesOnly: bool,
                                      filesOnly: bool, fn: Item -> bool, page: Option<nat>, fuel: nat)
    requires ChainEnds(fetch, toStandard, directoriesOnly, filesOnly, fn, page, fuel)
    ensures var w := Walk(fetch, toStandard, directoriesOnly, filesOnly, fn, page, fuel);
      var all := AllSurvivors(fetch, toStandard, directoriesOnly, filesOnly, w.requests);
      && w.handed == TakeThrough(all, fn)
      && (w.found <==> Stops(all, fn))
      && (w.found ==> w.err.None?)
    decreases fuel
  {
    var w := Walk(fetch, toStandard, directoriesOnly, filesOnly, fn, page, fuel);
    match fetch(page)
    case Failure(e) =>
      assert AllSurvivors(fetch, toStandard, directoriesOnly, filesOnly, w.requests) == [];
    case Success(p) =>
      var s := Survivors(p.data, toStandard, directoriesOnly, filesOnly);
      if Stops(s, fn) || p.nextPage.None? {
        assert AllSurvivors(fetch, toStandard, directoriesOnly, filesOnly, w.requests) == s + [];
        assert s + [] == s;
      } else {
        var rest := Walk(fetch, toStandard, directoriesOnly, filesOnly, fn, p.nextPage, fuel - 1);
        WalkHanded(fetch, toStandard, directoriesOnly, filesOnly, fn, p.nextPage, fuel - 1);
        assert w == Listed(rest.found, s + rest.handed, [page] + rest.requests, rest.err);
        var restAll := AllSurvivors(fetch, toStandard, directoriesOnly, filesOnly, rest.requests);
        assert w.requests[1..] == rest.requests;
        assert AllSurvivors(fetch, toStandard, directoriesOnly, filesOnly, w.requests) == s + restAll;
        HandedAfter(s, restAll, rest.handed, rest.found, fn);
      }
  }

  /** Items handed over from a page the callback accepted none of, followed by the rest of the walk. */
  lemma HandedAfter(s: seq<Item>, restAll: seq<Item>, restHanded: seq<Item>, restFound: bool, fn: Item -> bool)
    requires !Stops(s, fn) && restHanded == TakeThrough(restAll, fn) && (restFound <==> Stops(restAll, fn))
    ensures s + restHanded == TakeThrough(s + restAll, fn)
    ensures restFound <==> Stops(s + restAll, fn)
  {
    TakeThroughAppend(s, restAll, fn);
    StopsAppend(s, restAll, fn);
  }

  /**
   * The listing's whole behaviour: it requests `page` first and then each announced next page,
   * asks for another page only after a page on which the callback accepted nothing, hands the
   * callback the filtered items of those pages in order up to the first one it accepts,
   * reports found exactly when the callback accepted one, and stops after a failed request,
   * an accepted item, or a page without a next page.
   */
  lemma WalkCharacterised(fetch: Fetch, toStandard: string -> string, directoriesOnly: bool,
                          filesOnly: bool, fn: Item -> bool, page: Option<nat>, fuel: nat)
    requires ChainEnds(fetch, toStandard, directoriesOnly, filesOnly, fn, page, fuel)
    ensures var w := Walk(fetch, toStandard, directoriesOnly, filesOnly, fn, page, fuel);
      var all := AllSurvivors(fetch, toStandard, directoriesOnly, filesOnly, w.requests);
      && w.requests != [] && w.requests[0] == page
      && IsChain(fetch, w.requests)
      && NoneAcceptedBefore(fetch, toStandard, directoriesOnly, filesOnly, fn, w.requests)
      && w.handed == TakeThrough(all, fn)
      && (w.found <==> Stops(all, fn))
      && (w.found ==> w.err.None?)
      && EndedProperly(fetch, toStandard, directoriesOnly, filesOnly, fn, w)
  {
    WalkRequests(fetch, toStandard, directoriesOnly, filesOnly, fn, page, fuel);
    WalkContinues(fetch, toStandard, directoriesOnly, filesOnly, fn, page, fuel);
    WalkEnds(fetch, toStandard, directoriesOnly, filesOnly, fn, page, fuel);
    WalkHanded(fetch, toStandard, directoriesOnly, filesOnly, fn, page, fuel);
  }

  lemma {:induction false} SurvivorsStep(items: seq<Item>, i: nat, toStandard: string -> string,
                                         directoriesOnly: bool, filesOnly: bool)
    requires i < |items|
    ensures Survivors(items[..i + 1], toStandard, directoriesOnly, filesOnly)
         == Survivors(items[..i], toStandard, directoriesOnly, filesOnly)
            + (if Selected(items[i], directoriesOnly, filesOnly) then [Decoded(items[i], toStandard)] else [])
  {
    assert items[..i + 1][..i] == items[..i];
  }

  /** The survivors of a page split around index i. */
  lemma SurvivorsSplitAt(data: seq<Item>, i: nat, toStandard: string -> string, directoriesOnly: bool, filesOnly: bool)
    requires i < |data|
    ensures Survivors(data, toStandard, directoriesOnly, filesOnly)
         == Survivors(data[..i + 1], toStandard, directoriesOnly, filesOnly)
            + Survivors(data[i + 1..], toStandard, directoriesOnly, filesOnly)
  {
    assert data[..i + 1] + data[i + 1..] == data;
    SurvivorsAppend(data[..i + 1], data[i + 1..], toStandard, directoriesOnly, filesOnly);
  }

  /** An accepted item at index i of a page ends the page's part of the listing there. */
  lemma AcceptedAt(data: seq<Item>, i: nat, toStandard: string -> string, directoriesOnly: bool, filesOnly: bool,
                   fn: Item -> bool)
    requires i < |data| && Selected(data[i], directoriesOnly, filesOnly) && fn(Decoded(data[i], toStandard))
    requires !Stops(Survivors(data[..i], toStandard, directoriesOnly, filesOnly), fn)
    ensures var s := Survivors(data, toStandard, directoriesOnly, filesOnly);
      Stops(s, fn) && TakeThrough(s, fn) == Survivors(data[..i], toStandard, directoriesOnly, filesOnly) + [Decoded(data[i], toStandard)]
  {
    var done := Survivors(data[..i], toStandard, directoriesOnly, filesOnly);
    var item := Decoded(data[i], toStandard);
    var tail := Survivors(data[i + 1..], toStandard, directoriesOnly, filesOnly);
    SurvivorsStep(data, i, toStandard, directoriesOnly, filesOnly);
    SurvivorsSplitAt(data, i, toStandard, directoriesOnly, filesOnly);
    AppendAssoc(done, [item], tail);
    assert fn(([item] + tail)[0]);
    StopsAppend(done, [item] + tail, fn);
    TakeThroughAppend(done, [item] + tail, fn);
  }

  /** One step of Walk, for the page just fetched. */
  lemma WalkStep(fetch: Fetch, toStandard: string -> string, directoriesOnly: bool, filesOnly: bool,
                 fn: Item -> bool, page: Option<nat>, fuel: nat)
    requires ChainEnds(fetch, toStandard, directoriesOnly, filesOnly, fn, page, fuel)
    ensures var w := Walk(fetch, toStandard, directoriesOnly, filesOnly, fn, page, fuel);
      match fetch(page)
      case Failure(e) => w == Listed(false, [], [page], Some(Wrapped("couldn't list files: ", e)))
      case Success(p) =>
        var s := Survivors(p.data, toStandard, directoriesOnly, filesOnly);
        if Stops(s, fn) then w == Listed(true, TakeThrough(s, fn), [page], None)
        else if p.nextPage.None? then w == Listed(false, s, [page], None)
        else
          && ChainEnds(fetch, toStandard, directoriesOnly, filesOnly, fn, p.nextPage, fuel - 1)
          && var rest := Walk(fetch, toStandard, directoriesOnly, filesOnly, fn, p.nextPage, fuel - 1);
             w == Listed(rest.found, s + rest.handed, [page] + rest.requests, rest.err)
  {
  }

  /**
   * What ListAll has gathered so far, followed by the walk from page on, is the whole
   * listing goal.
   */
  ghost predicate ListedSoFar(goal: Listed, fetch: Fetch, toStandard: string -> string, directoriesOnly: bool,
                              filesOnly: bool, fn: Item -> bool, handed: seq<Item>, requests: seq<Option<nat>>,
                              page: Option<nat>, fuel: nat)
    requires ChainEnds(fetch, toStandard, directoriesOnly, filesOnly, fn, page, fuel)
  {
    var w := Walk(fetch, toStandard, directoriesOnly, filesOnly, fn, page, fuel);
    goal == Listed(w.found, handed + w.handed, requests + w.requests, w.err)
  }

  /** A failed request ends the listing with the wrapped error. */
  lemma ListedAfterFailure(goal: Listed, fetch: Fetch, toStandard: string -> string, directoriesOnly: bool,
                           filesOnly: bool, fn: Item -> bool, handed: seq<Item>, requests: seq<Option<nat>>,
                           page: Option<nat>, fuel: nat)
    requires ChainEnds(fetch, toStandard, directoriesOnly, filesOnly, fn, page, fuel)
    requires ListedSoFar(goal, fetch, toStandard, directoriesOnly, filesOnly, fn, handed, requests, page, fuel)
    requires fetch(page).Failure?
    ensures goal == Listed(false, handed, requests + [page], Some(Wrapped("couldn't list files: ", fetch(page).error)))
  {
    WalkStep(fetch, toStandard, directoriesOnly, filesOnly, fn, page, fuel);
    assert handed + [] == handed;
  }

  /** A page whose filtered items the callback accepts one of, or that has no next page, ends the listing. */
  lemma ListedAfterLastPage(goal: Listed, fetch: Fetch, toStandard: string -> string, directoriesOnly: bool,
                            filesOnly: bool, fn: Item -> bool, handed: seq<Item>, requests: seq<Option<nat>>,
                            page: Option<nat>, fuel: nat)
    requires ChainEnds(fetch, toStandard, directoriesOnly, filesOnly, fn, page, fuel)
    requires ListedSoFar(goal, fetch, toStandard, directoriesOnly, filesOnly, fn, handed, requests, page, fuel)
    requires fetch(page).Success?
    requires var s := Survivors(fetch(page).value.data, toStandard, directoriesOnly, filesOnly);
      Stops(s, fn) || fetch(page).value.nextPage.None?
    ensures var s := Survivors(fetch(page).value.data, toStandard, directoriesOnly, filesOnly);
      goal == Listed(Stops(s, fn), handed + TakeThrough(s, fn), requests + [page], None)
  {
    WalkStep(fetch, toStandard, directoriesOnly, filesOnly, fn, page, fuel);
  }

  /** After any other page the listing goes on with the next page, one step of fuel less. */
  lemma ListedAfterPage(goal: Listed, fetch: Fetch, toStandard: string -> string, directoriesOnly: bool,
                        filesOnly: bool, fn: Item -> bool, handed: seq<Item>, requests: seq<Option<nat>>,
                        page: Option<nat>, fuel: nat)
    requires ChainEnds(fetch, toStandard, directoriesOnly, filesOnly, fn, page, fuel)
    requires ListedSoFar(goal, fetch, toStandard, directoriesOnly, filesOnly, fn, handed, requests, page, fuel)
    requires fetch(page).Success?
    requires !Stops(Survivors(fetch(page).value.data, toStandard, directoriesOnly, filesOnly), fn)
    requires fetch(page).value.nextPage.Some?
    ensures fuel > 0
    ensures ChainEnds(fetch, toStandard, directoriesOnly, filesOnly, fn, fetch(page).value.nextPage, fuel - 1)
    ensures ListedSoFar(goal, fetch, toStandard, directoriesOnly, filesOnly, fn,
                        handed + Survivors(fetch(page).value.data, toStandard, directoriesOnly, filesOnly),
                        requests + [page], fetch(page).value.nextPage, fuel - 1)
  {
    WalkStep(fetch, toStandard, directoriesOnly, filesOnly, fn, page, fuel);
    var s := Survivors(fetch(page).value.data, toStandard, directoriesOnly, filesOnly);
    var rest := Walk(fetch, toStandard, directoriesOnly, filesOnly, fn, fetch(page).value.nextPage, fuel - 1);
    AppendAssoc(handed, s, rest.handed);
    AppendAssoc(requests, [page], rest.requests);
  }

  lemma AppendAssoc<T>(a: seq<T>, b: seq<T>, c: seq<T>)
    ensures a + (b + c) == (a + b) + c
  {
  }

  /**
   * The inner loop of listAll over one page's array: filter, decode, hand over, and stop at
   * the first item the callback accepts.
   */
  method ScanPage(data: seq<Item>, toStandard: string -> string, directoriesOnly: bool, filesOnly: bool,
                  fn: Item -> bool)
    returns (stopped: bool, pageHanded: seq<Item>)
    ensures var s := Survivors(data, toStandard, directoriesOnly, filesOnly);
      stopped == Stops(s, fn) && pageHanded == TakeThrough(s, fn)
  {
    ghost var s := Survivors(data, toStandard, directoriesOnly, filesOnly);
    pageHanded := [];
    var i := 0;
    while i < |data|
      invariant 0 <= i <= |data|
      invariant pageHanded == Survivors(data[..i], toStandard, directoriesOnly, filesOnly)
      invariant !Stops(pageHanded, fn)
    {
      var item := data[i];
      var keep: bool;
      if item.itemType == ItemTypeFolder {
        keep := !filesOnly;
      } else if item.itemType != ItemTypeFolder {
        keep := !directoriesOnly;
      } else {
        // the "unknown type" branch: no tag is both the folder tag and not the folder tag
        assert false;
        keep := false;
      }
      SurvivorsStep(data, i, toStandard, directoriesOnly, filesOnly);
      if keep {
        item := item.(name := toStandard(item.name));
        StopsAppend(pageHanded, [item], fn);
        if fn(item) {
          AcceptedAt(data, i, toStandard, directoriesOnly, filesOnly, fn);
          pageHanded := pageHanded + [item];
          return true, pageHanded;
        }
        pageHanded := pageHanded + [item];
      }
      i := i + 1;
    }
    assert data[..i] == data;
    stopped := false;
  }

  /** The listing's own loop, with its early exit once the callback has accepted an item. */
  method ListAll(fetch: Fetch, toStandard: string -> string, directoriesOnly: bool, filesOnly: bool,
                 fn: Item -> bool, ghost fuel: nat)
    returns (found: bool, handed: seq<Item>, requests: seq<Option<nat>>, err: Option<Error>)
    requires ChainEnds(fetch, toStandard, directoriesOnly, filesOnly, fn, None, fuel)
    ensures Listed(found, handed, requests, err) == Walk(fetch, toStandard, directoriesOnly, filesOnly, fn, None, fuel)
  {
    ghost var goal := Walk(fetch, toStandard, directoriesOnly, filesOnly, fn, None, fuel);
    found, handed, requests, err := false, [], [], None;
    var page: Option<nat> := None;
    ghost var left := fuel;
    assert [] + goal.handed == goal.handed && [] + goal.requests == goal.requests;
    while true
      invariant ChainEnds(fetch, toStandard, directoriesOnly, filesOnly, fn, page, left)
      invariant ListedSoFar(goal, fetch, toStandard, directoriesOnly, filesOnly, fn, handed, requests, page, left)
      decreases left
    {
      var result := fetch(page);
      if result.Failure? {
        ListedAfterFailure(goal, fetch, toStandard, directoriesOnly, filesOnly, fn, handed, requests, page, left);
        requests := requests + [page];
        err := Some(Wrapped("couldn't list files: ", result.error));
        return;
      }
      var stopped, pageHanded := ScanPage(result.value.data, toStandard, directoriesOnly, filesOnly, fn);
      if stopped || result.value.nextPage.None? {
        ListedAfterLastPage(goal, fetch, toStandard, directoriesOnly, filesOnly, fn, handed, requests, page, left);
        found, handed, requests := stopped, handed + pageHanded, requests + [page];
        return;
      }
      ListedAfterPage(goal, fetch, toStandard, directoriesOnly, filesOnly, fn, handed, requests, page, left);
      handed, requests := handed + pageHanded, requests + [page];
      page := result.value.nextPage;
      left := left - 1;
    }
  }

  lemma {:induction false} SurvivorsAppend(a: seq<Item>, b: seq<Item>, toStandard: string -> string,
                                           directoriesOnly: bool, filesOnly: bool)
    ensures Survivors(a + b, toStandard, directoriesOnly, filesOnly)
         == Survivors(a, toStandard, directoriesOnly, filesOnly) + Survivors(b, toStandard, directoriesOnly, filesOnly)
    decreases |b|
  {
    if b == [] {
      assert a + b == a;
    } else {
      var init := b[..|b| - 1];
      assert (a + b)[..|a + b| - 1] == a + init;
      SurvivorsAppend(a, init, toStandard, directoriesOnly, filesOnly);
    }
  }

  /**
   * AllSurvivors holds only selected items, and every selected item of every successfully
   * fetched page, decoded.
   */
  lemma {:induction false} AllSurvivorsFilter(fetch: Fetch, toStandard: string -> string, directoriesOnly: bool,
                                              filesOnly: bool, requests: seq<Option<nat>>)
    ensures forall x :: x in AllSurvivors(fetch, toStandard, directoriesOnly, filesOnly, requests) ==>
      Selected(x, directoriesOnly, filesOnly)
    ensures forall k, i ::
      (0 <= k < |requests| && fetch(requests[k]).Success? && 0 <= i < |fetch(requests[k]).value.data| &&
       Selected(fetch(requests[k]).value.data[i], directoriesOnly, filesOnly)) ==>
      Decoded(fetch(requests[k]).value.data[i], toStandard) in AllSurvivors(fetch, toStandard, directoriesOnly, filesOnly, requests)
    decreases |requests|
  {
    if requests != [] {
      var rest := requests[1..];
      AllSurvivorsFilter(fetch, toStandard, directoriesOnly, filesOnly, rest);
      var head := match fetch(requests[0])
        case Failure(_) => []
        case Success(p) => Survivors(p.data, toStandard, directoriesOnly, filesOnly);
      assert AllSurvivors(fetch, toStandard, directoriesOnly, filesOnly, requests)
          == head + AllSurvivors(fetch, toStandard, directoriesOnly, filesOnly, rest);
      if fetch(requests[0]).Success? {
        SurvivorsFilter(fetch(requests[0]).value.data, toStandard, directoriesOnly, filesOnly);
      }
      forall k | 1 <= k < |requests|
        ensures requests[k] == rest[k - 1]
      {
      }
    }
  }

  /** The listing of fetch with this filter and callback ends after finitely many requests. */
  ghost predicate ListingEnds(fetch: Fetch, toStandard: string -> string, directoriesOnly: bool, filesOnly: bool,
                              fn: Item -> bool)
  {
    exists n: nat :: ChainEnds(fetch, toStandard, directoriesOnly, filesOnly, fn, None, n)
  }

  /** The outcome of listAll over fetch, from its first request (the one without a page parameter). */
  ghost function Listing(fetch: Fetch, toStandard: string -> string, directoriesOnly: bool, filesOnly: bool,
                         fn: Item -> bool): Listed
    requires ListingEnds(fetch, toStandard, directoriesOnly, filesOnly, fn)
  {
    var n: nat :| ChainEnds(fetch, toStandard, directoriesOnly, filesOnly, fn, None, n);
    Walk(fetch, toStandard, directoriesOnly, filesOnly, fn, None, n)
  }

  /** Listing is the walk from the first request with any fuel that suffices. */
  lemma ListingIsWalk(fetch: Fetch, toStandard: string -> string, directoriesOnly: bool, filesOnly: bool,
                      fn: Item -> bool, n: nat)
    requires ChainEnds(fetch, toStandard, directoriesOnly, filesOnly, fn, None, n)
    ensures ListingEnds(fetch, toStandard, directoriesOnly, filesOnly, fn)
    ensures Listing(fetch, toStandard, directoriesOnly, filesOnly, fn)
         == Walk(fetch, toStandard, directoriesOnly, filesOnly, fn, None, n)
  {
    var m: nat :| ChainEnds(fetch, toStandard, directoriesOnly, filesOnly, fn, None, m) && Listing(fetch, toStandard, directoriesOnly, filesOnly, fn)
                                              == Walk(fetch, toStandard, directoriesOnly, filesOnly, fn, None, m);
    WalkFuel(fetch, toStandard, directoriesOnly, filesOnly, fn, None, n, m);
  }

  /** The characterisation of Walk, for a whole listing. */
  lemma ListingCharacterised(fetch: Fetch, toStandard: string -> string, directoriesOnly: bool, filesOnly: bool,
                             fn: Item -> bool)
    requires ListingEnds(fetch, toStandard, directoriesOnly, filesOnly, fn)
    ensures var w := Listing(fetch, toStandard, directoriesOnly, filesOnly, fn);
      var all := AllSurvivors(fetch, toStandard, directoriesOnly, filesOnly, w.requests);
      && w.requests != [] && w.requests[0] == None
      && IsChain(fetch, w.requests)
      && NoneAcceptedBefore(fetch, toStandard, directoriesOnly, filesOnly, fn, w.requests)
      && w.handed == TakeThrough(all, fn)
      && (w.found <==> Stops(all, fn))
      && (w.found ==> w.err.None?)
      && EndedProperly(fetch, toStandard, directoriesOnly, filesOnly, fn, w)
  {
    var n: nat :| ChainEnds(fetch, toStandard, directoriesOnly, filesOnly, fn, None, n);
    ListingIsWalk(fetch, toStandard, directoriesOnly, filesOnly, fn, n);
    WalkCharacterised(fetch, toStandard, directoriesOnly, filesOnly, fn, None, n);
  }

  /** ListAll run with any sufficient fuel produces Listing. */
  method ListAllOf(fetch: Fetch, toStandard: string -> string, directoriesOnly: bool, filesOnly: bool,
                   fn: Item -> bool)
    returns (found: bool, handed: seq<Item>, requests: seq<Option<nat>>, err: Option<Error>)
    requires ListingEnds(fetch, toStandard, directoriesOnly, filesOnly, fn)
    ensures Listed(found, handed, requests, err) == Listing(fetch, toStandard, directoriesOnly, filesOnly, fn)
    ensures found ==> err.None? && handed != [] && fn(handed[|handed| - 1])
  {
    ghost var n: nat :| ChainEnds(fetch, toStandard, directoriesOnly, filesOnly, fn, None, n);
    found, handed, requests, err := ListAll(fetch, toStandard, directoriesOnly, filesOnly, fn, n);
    ListingIsWalk(fetch, toStandard, directoriesOnly, filesOnly, fn, n);
    ListingCharacterised(fetch, toStandard, directoriesOnly, filesOnly, fn);
  }
}
