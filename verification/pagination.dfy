/** Read-only AWS calls: bounded retry of one call or of one whole enumeration, and the two ways a
    listing is put together from pages, against any page chain and any schedule of faults. */
module Pagination {
  import opened Domain

  // What happens to one request the client is asked for; the library's own retries lie below it.
  datatype Fault = Fine | Throttled | Broken(code: int)

  datatype Page = Page(items: seq<string>, next: Option<string>)

  // The fault that each request ends in, in the order in which requests are made.
  type Schedule = nat -> Fault

  // The page that answers a request with this continuation token.
  type Service = Option<string> -> Page

  predicate HasNext(page: Page) {
    page.next.Some? && page.next.value != ""
  }

  // The pages one gets by following the tokens from here to the end.
  ghost predicate IsChain(service: Service, token: Option<string>, chain: seq<Page>)
    decreases |chain|
  {
    && |chain| > 0 && chain[0] == service(token)
    && if HasNext(chain[0]) then IsChain(service, chain[0].next, chain[1..]) else |chain| == 1
  }

  /** A chain is just this: each page but the last has a token that is not empty and is followed by the
      answer to that token, and the last has none or an empty one. */
  lemma {:induction false} ChainExactly(service: Service, token: Option<string>, chain: seq<Page>)
    ensures IsChain(service, token, chain)
       <==> && |chain| > 0 && chain[0] == service(token)
            && (forall i :: 0 <= i < |chain| - 1 ==>
                  && chain[i].next.Some? && chain[i].next.value != ""
                  && chain[i + 1] == service(chain[i].next))
            && (chain[|chain| - 1].next.None? || chain[|chain| - 1].next.value == "")
    decreases |chain|
  {
    if |chain| > 1 {
      var rest := chain[1..];
      ChainExactly(service, chain[0].next, rest);
      assert rest[|rest| - 1] == chain[|chain| - 1];
      assert forall i :: 0 <= i < |rest| ==> rest[i] == chain[i + 1];
      assert forall i :: 0 < i < |chain| ==> chain[i] == rest[i - 1];
    }
  }

  lemma {:induction false} ChainIsUnique(service: Service, token: Option<string>, a: seq<Page>,
                                         b: seq<Page>)
    requires IsChain(service, token, a) && IsChain(service, token, b)
    ensures a == b
    decreases |a|
  {
    if HasNext(a[0]) {
      ChainIsUnique(service, a[0].next, a[1..], b[1..]);
      assert a == [a[0]] + a[1..] && b == [b[0]] + b[1..];
    }
  }

  function Items(pages: seq<Page>): seq<string> {
    if |pages| == 0 then [] else pages[0].items + Items(pages[1..])
  }

  lemma {:induction false} ItemsAppend(a: seq<Page>, b: seq<Page>)
    ensures Items(a + b) == Items(a) + Items(b)
  {
    if |a| == 0 {
      assert a + b == b;
    } else {
      assert (a + b)[1..] == a[1..] + b;
      ItemsAppend(a[1..], b);
    }
  }

  // ---- what a schedule does to a retried unit ---------------------------------------------

  // One attempt at a unit of so many requests: the fault that stops it and the next request.
  function Attempted(faults: Schedule, at: nat, length: nat): (r: (Fault, nat))
    ensures r.0.Fine? <==> forall i :: at <= i < at + length ==> faults(i).Fine?
    ensures r.0.Fine? ==> r.1 == at + length
    ensures !r.0.Fine? ==>
              && at < r.1 <= at + length && r.0 == faults(r.1 - 1)
              && forall i :: at <= i < r.1 - 1 ==> faults(i).Fine?
    decreases length
  {
    if length == 0 then (Fine, at)
    else if !faults(at).Fine? then (faults(at), at + 1)
    else Attempted(faults, at + 1, length - 1)
  }

  // How a retried unit ends: its last fault, how often it was retried, and the next request.
  datatype Ending = Ending(fault: Fault, retries: nat, at: nat)

  function Retried(faults: Schedule, at: nat, length: nat, attempt: nat): (e: Ending)
    requires attempt < 4
    ensures attempt <= e.retries <= 3
    ensures e.fault.Throttled? ==> e.retries == 3
    ensures e.at <= at + (e.retries - attempt + 1) * length
    ensures e.fault.Fine? ==> at + length <= e.at
    decreases 4 - attempt
  {
    var (fault, next) := Attempted(faults, at, length);
    if fault.Throttled? && attempt < 3 then
      var e := Retried(faults, next, length, attempt + 1);
      assert (e.retries - attempt + 1) * length == (e.retries - attempt) * length + length;
      e
    else
      assert (attempt - attempt + 1) * length == length;
      Ending(fault, attempt, next)
  }

  function Pow2(k: nat): nat {
    if k == 0 then 1 else 2 * Pow2(k - 1)
  }

  // The pause after a throttled attempt.
  function Pause(attempt: nat): real {
    var pause := 0.5 * Pow2(attempt) as real;
    if pause < 8.0 then pause else 8.0
  }

  function Pauses(retries: nat): seq<real> {
    seq(retries, i requires 0 <= i => Pause(i))
  }

  function Sum(pauses: seq<real>): real {
    if |pauses| == 0 then 0.0 else Sum(pauses[..|pauses| - 1]) + pauses[|pauses| - 1]
  }

  /** A unit retried k times sleeps (2^k - 1) / 2 seconds in all, three and a half at most. */
  lemma {:induction false} BackoffAddsUp(retries: nat)
    requires retries <= 3
    ensures Sum(Pauses(retries)) == (Pow2(retries) as real - 1.0) / 2.0
    ensures Sum(Pauses(retries)) <= 3.5
  {
    if retries > 0 {
      BackoffAddsUp(retries - 1);
      assert Pauses(retries)[..retries - 1] == Pauses(retries - 1);
      assert Pow2(0) == 1 && Pow2(1) == 2 && Pow2(2) == 4 && Pow2(3) == 8;
    }
  }

  // Where the attempts of a unit begin: each one right after the throttle that stopped the last.
  ghost predicate AttemptsAt(faults: Schedule, length: nat, starts: seq<nat>) {
    && 1 <= |starts| <= 4
    && forall k :: 0 <= k < |starts| - 1 ==>
         var stop := Attempted(faults, starts[k], length);
         stop.0.Throttled? && starts[k + 1] == stop.1
  }

  /** A unit is tried at most four times, a failed attempt is repeated only after a throttle, and the
      unit's outcome is that of its last attempt. */
  lemma {:induction false} RetriedMeans(faults: Schedule, at: nat, length: nat, attempt: nat)
    returns (starts: seq<nat>)
    requires attempt < 4
    ensures var e := Retried(faults, at, length, attempt);
            && AttemptsAt(faults, length, starts) && starts[0] == at
            && |starts| == e.retries - attempt + 1
            && Attempted(faults, starts[|starts| - 1], length) == (e.fault, e.at)
    decreases 4 - attempt
  {
    hide Attempted;
    RetryStep(faults, at, length, attempt);
    var (fault, next) := Attempted(faults, at, length);
    if fault.Throttled? && attempt < 3 {
      var rest := RetriedMeans(faults, next, length, attempt + 1);
      starts := [at] + rest;
      forall k | 0 <= k < |starts| - 1
        ensures var stop := Attempted(faults, starts[k], length);
                stop.0.Throttled? && starts[k + 1] == stop.1
      {
        if k > 0 {
          assert starts[k] == rest[k - 1] && starts[k + 1] == rest[(k - 1) + 1];
        }
      }
    } else {
      starts := [at];
    }
  }

  /** Three throttles at most, and no other fault, never make a unit fail. */
  lemma {:induction false} ThreeThrottlesAreSurvived(faults: Schedule, at: nat, length: nat,
                                                     attempt: nat, throttles: set<nat>)
    requires attempt < 4 && |throttles| <= 3 - attempt
    requires forall i :: i >= at ==> faults(i).Fine? || (faults(i).Throttled? && i in throttles)
    ensures Retried(faults, at, length, attempt).fault.Fine?
    decreases 4 - attempt
  {
    var (fault, next) := Attempted(faults, at, length);
    if !fault.Fine? {
      assert next - 1 in throttles;
      ThreeThrottlesAreSurvived(faults, next, length, attempt + 1, throttles - {next - 1});
    }
  }

  // ---- page by page -----------------------------------------------------------------------

  // A listing of so many pages whose every request is retried on its own.
  datatype Course = Course(fault: Fault, pauses: seq<real>, at: nat)

  function PageByPage(faults: Schedule, at: nat, pages: nat): (c: Course)
    ensures c.at <= at + 4 * pages
    ensures c.fault.Fine? ==> at + pages <= c.at
    decreases pages
  {
    if pages == 0 then Course(Fine, [], at)
    else
      var e := Retried(faults, at, 1, 0);
      assert e.at <= at + 4;
      if !e.fault.Fine? then Course(e.fault, Pauses(e.retries), e.at)
      else
        var rest := PageByPage(faults, e.at, pages - 1);
        Course(rest.fault, Pauses(e.retries) + rest.pauses, rest.at)
  }

  lemma {:induction false} SumAppend(a: seq<real>, b: seq<real>)
    ensures Sum(a + b) == Sum(a) + Sum(b)
  {
    if |b| == 0 {
      assert a + b == a;
    } else {
      assert (a + b)[..|a + b| - 1] == a + b[..|b| - 1];
      SumAppend(a, b[..|b| - 1]);
    }
  }

  /** A listing page by page sleeps at most three and a half seconds for each of its pages. */
  lemma {:induction false} PageByPageSleeps(faults: Schedule, at: nat, pages: nat)
    ensures Sum(PageByPage(faults, at, pages).pauses) <= 3.5 * pages as real
    decreases pages
  {
    if pages > 0 {
      var e := Retried(faults, at, 1, 0);
      BackoffAddsUp(e.retries);
      if e.fault.Fine? {
        PageByPageSleeps(faults, e.at, pages - 1);
        SumAppend(Pauses(e.retries), PageByPage(faults, e.at, pages - 1).pauses);
      }
    }
  }

  // No four requests in a row are throttled, and nothing else goes wrong.
  ghost predicate Bearable(faults: Schedule, at: nat) {
    && (forall i :: i >= at ==> !faults(i).Broken?)
    && (forall i :: i >= at ==> Breath(faults, i))
  }

  predicate Breath(faults: Schedule, i: nat) {
    faults(i).Fine? || faults(i + 1).Fine? || faults(i + 2).Fine? || faults(i + 3).Fine?
  }

  lemma OneRequest(faults: Schedule, at: nat, attempt: nat)
    requires attempt < 4
    ensures Retried(faults, at, 1, attempt)
         == if faults(at).Throttled? && attempt < 3 then Retried(faults, at + 1, 1, attempt + 1)
            else Ending(faults(at), attempt, at + 1)
  {
    assert Attempted(faults, at, 1) == (faults(at), at + 1);
  }

  lemma OneBearableRequest(faults: Schedule, at: nat)
    requires Bearable(faults, at)
    ensures Retried(faults, at, 1, 0).fault.Fine?
  {
    hide Retried;
    OneRequest(faults, at, 0);
    OneRequest(faults, at + 1, 1);
    OneRequest(faults, at + 2, 2);
    OneRequest(faults, at + 3, 3);
    assert Breath(faults, at);
  }

  /** A listing page by page survives any number of throttles, as long as four of them never come in
      a row; one retried as a whole does not (see WholeListingCanFail). */
  lemma {:induction false} PageByPageSurvives(faults: Schedule, at: nat, pages: nat)
    requires Bearable(faults, at)
    ensures PageByPage(faults, at, pages).fault.Fine?
    decreases pages
  {
    hide Retried, Pauses;
    if pages > 0 {
      OneBearableRequest(faults, at);
      PageByPageSurvives(faults, Retried(faults, at, 1, 0).at, pages - 1);
    }
  }

  /** A bearable schedule under which a listing of two pages fails when it is retried as a whole:
      each of its four attempts loses its second request. */
  lemma WholeListingCanFail()
    ensures var faults := (i: nat) => if i % 2 == 1 then Throttled else Fine;
            && Bearable(faults, 0)
            && Retried(faults, 0, 2, 0).fault.Throttled?
            && PageByPage(faults, 0, 2).fault.Fine?
  {
    var faults := (i: nat) => if i % 2 == 1 then Throttled else Fine;
    hide Attempted;
    LosesSecond(faults, 0);
    LosesSecond(faults, 2);
    LosesSecond(faults, 4);
    LosesSecond(faults, 6);
    assert Bearable(faults, 0);
    hide Retried;
    RetryStep(faults, 0, 2, 0);
    RetryStep(faults, 2, 2, 1);
    RetryStep(faults, 4, 2, 2);
    RetryStep(faults, 6, 2, 3);
    PageByPageSurvives(faults, 0, 2);
  }

  lemma LosesSecond(faults: Schedule, at: nat)
    requires faults(at).Fine? && faults(at + 1).Throttled?
    ensures Attempted(faults, at, 2) == (Throttled, at + 2)
  {
    AttemptStep(faults, at, 2);
    AttemptStep(faults, at + 1, 1);
  }

  // One step of each of the recursions above.
  lemma RetryStep(faults: Schedule, at: nat, length: nat, attempt: nat)
    requires attempt < 4
    ensures var (fault, next) := Attempted(faults, at, length);
            Retried(faults, at, length, attempt)
            == if fault.Throttled? && attempt < 3 then Retried(faults, next, length, attempt + 1)
               else Ending(fault, attempt, next)
  {
  }

  lemma AttemptStep(faults: Schedule, at: nat, length: nat)
    requires length > 0
    ensures Attempted(faults, at + 1, 0) == (Fine, at + 1)
    ensures Attempted(faults, at, length)
         == if faults(at).Fine? then Attempted(faults, at + 1, length - 1) else (faults(at), at + 1)
  {
  }

  lemma PageStep(faults: Schedule, at: nat, pages: nat)
    requires pages > 0
    ensures var e := Retried(faults, at, 1, 0);
            && PageByPage(faults, e.at, 0) == Course(Fine, [], e.at)
            && PageByPage(faults, at, pages)
            == if e.fault.Fine? then
                 var rest := PageByPage(faults, e.at, pages - 1);
                 Course(rest.fault, Pauses(e.retries) + rest.pauses, rest.at)
               else Course(e.fault, Pauses(e.retries), e.at)
  {
    hide Retried, Pauses;
  }

  lemma PauseStep(attempt: nat)
    ensures Pauses(0) == [] && Pauses(attempt + 1) == Pauses(attempt) + [Pause(attempt)]
  {
  }

  lemma LastPage(service: Service, token: Option<string>, rest: seq<Page>)
    requires IsChain(service, token, rest)
    ensures |rest| > 0 && rest[0] == service(token)
    ensures Items(rest) == rest[0].items + Items(rest[1..])
    ensures if HasNext(rest[0]) then IsChain(service, rest[0].next, rest[1..])
            else |rest| == 1 && Items(rest[1..]) == []
  {
  }

  // ---- the client -------------------------------------------------------------------------

  class Client {
    const faults: Schedule
    const service: Service
    // How many requests were sent, and how long the client slept between them.
    var sent: nat
    var sleeps: seq<real>

    constructor (faults: Schedule, service: Service)
      ensures this.faults == faults && this.service == service && sent == 0 && sleeps == []
    {
      this.faults, this.service, sent, sleeps := faults, service, 0, [];
    }

    method Send(token: Option<string>) returns (r: Result<Page, Fault>)
      modifies `sent
      ensures sent == old(sent) + 1
      ensures r == if faults(old(sent)).Fine? then Ok(service(token)) else Err(faults(old(sent)))
    {
      var fault := faults(sent);
      sent := sent + 1;
      r := if fault.Fine? then Ok(service(token)) else Err(fault);
    }

    /** One call, tried up to four times. */
    method Invoke(token: Option<string>) returns (r: Result<Page, Fault>)
      modifies this
      ensures var e := Retried(faults, old(sent), 1, 0);
              && sent == e.at && sleeps == old(sleeps) + Pauses(e.retries)
              && r == if e.fault.Fine? then Ok(service(token)) else Err(e.fault)
    {
      hide Retried, Pauses;
      PauseStep(0);
      for attempt := 0 to 4
        invariant attempt < 4 && sleeps == old(sleeps) + Pauses(attempt)
        invariant Retried(faults, old(sent), 1, 0) == Retried(faults, sent, 1, attempt)
      {
        OneRequest(faults, sent, attempt);
        r := Send(token);
        if r.Err? && r.error.Throttled? && attempt < 3 {
          sleeps := sleeps + [Pause(attempt)];
          PauseStep(attempt);
        } else {
          return;
        }
      }
    }

    // One pass of the library's paginator over the whole chain.
    method Enumerate(ghost chain: seq<Page>) returns (r: Result<seq<string>, Fault>)
      requires IsChain(service, None, chain)
      modifies `sent
      ensures var (fault, next) := Attempted(faults, old(sent), |chain|);
              && sent == next
              && r == if fault.Fine? then Ok(Items(chain)) else Err(fault)
    {
      hide Attempted, Items, IsChain;
      var combined: seq<string> := [];
      var token: Option<string> := None;
      ghost var rest := chain;
      while true
        invariant IsChain(service, token, rest)
        invariant combined + Items(rest) == Items(chain)
        invariant Attempted(faults, old(sent), |chain|) == Attempted(faults, sent, |rest|)
        decreases |rest|
      {
        LastPage(service, token, rest);
        AttemptStep(faults, sent, |rest|);
        var page := Send(token);
        if page.Err? {
          return Err(page.error);
        }
        assert (combined + rest[0].items) + Items(rest[1..]) == combined + Items(rest);
        combined := combined + page.value.items;
        if !HasNext(page.value) {
          assert combined + [] == combined;
          return Ok(combined);
        }
        token := page.value.next;
        rest := rest[1..];
      }
    }

    /** A listing that is enumerated anew after every throttle: what the earlier attempts gathered is
        dropped, so the result is one whole chain in order or an error. */
    method Paginate(ghost chain: seq<Page>) returns (r: Result<seq<string>, Fault>)
      requires IsChain(service, None, chain)
      modifies this
      ensures var e := Retried(faults, old(sent), |chain|, 0);
              && sent == e.at && sleeps == old(sleeps) + Pauses(e.retries)
              && r == if e.fault.Fine? then Ok(Items(chain)) else Err(e.fault)
    {
      hide Retried, Pauses, Attempted, Items;
      PauseStep(0);
      for attempt := 0 to 4
        invariant attempt < 4 && sleeps == old(sleeps) + Pauses(attempt)
        invariant Retried(faults, old(sent), |chain|, 0) == Retried(faults, sent, |chain|, attempt)
      {
        RetryStep(faults, sent, |chain|, attempt);
        r := Enumerate(chain);
        if r.Err? && r.error.Throttled? && attempt < 3 {
          sleeps := sleeps + [Pause(attempt)];
          PauseStep(attempt);
        } else {
          return;
        }
      }
    }

    /** A listing that follows the tokens itself and retries every request on its own: no page is
        lost or repeated by a retry, and the loop ends on every finite chain. */
    method PaginateManually(ghost chain: seq<Page>) returns (r: Result<seq<string>, Fault>)
      requires IsChain(service, None, chain)
      modifies this
      ensures var c := PageByPage(faults, old(sent), |chain|);
              && sent == c.at && sleeps == old(sleeps) + c.pauses
              && r == if c.fault.Fine? then Ok(Items(chain)) else Err(c.fault)
    {
      hide Retried, Pauses, Items, IsChain, PageByPage;
      var combined: seq<string> := [];
      var token: Option<string> := None;
      ghost var rest := chain;
      ghost var course := PageByPage(faults, sent, |chain|);
      while true
        invariant IsChain(service, token, rest)
        invariant combined + Items(rest) == Items(chain)
        invariant var todo := PageByPage(faults, sent, |rest|);
                  && course.fault == todo.fault && course.at == todo.at
                  && old(sleeps) + course.pauses == sleeps + todo.pauses
        decreases |rest|
      {
        LastPage(service, token, rest);
        PageStep(faults, sent, |rest|);
        var page := Invoke(token);
        if page.Err? {
          return Err(page.error);
        }
        assert (combined + rest[0].items) + Items(rest[1..]) == combined + Items(rest);
        combined := combined + page.value.items;
        if !HasNext(page.value) {
          assert combined + [] == combined;
          return Ok(combined);
        }
        token := page.value.next;
        rest := rest[1..];
      }
    }
  }
}
