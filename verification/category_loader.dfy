/** The workplace-category loader of the shared container
    (src/context/FormDataContext.tsx): a list, a status among idle, loading,
    loaded and error, and the last error message. The request itself is left
    to the caller; its outcome is an input. Calls are taken one after the
    other, each reading the state the previous one left. */
module CategoryLoader {
  import opened FormTypes

  /** `JobCategory`. */
  datatype Category = Category(slug: string, name: string)

  /** `'idle' | 'loading' | 'loaded' | 'error'`. */
  datatype Status = Idle | Loading | Loaded | Failed

  datatype Loader = Loader(categories: seq<Category>, status: Status, error: Option<string>)

  /** The provider's initial state: no categories, idle, no error. */
  const Initial: Loader := Loader([], Idle, None)

  /** How the request ended: a parsed list, a response whose status is not
      2xx, or a thrown value (an `Error` carries a message, anything else
      does not). */
  datatype FetchOutcome = Fetched(list: seq<Category>) | NotOk | Threw(message: Option<string>)

  const NotOkMessage: string := "Не удалось получить список категорий"
  const UnknownErrorMessage: string := "Неизвестная ошибка"

  /** The message the catch block stores for a failed request. */
  function FailureMessage(o: FetchOutcome): (m: string)
    requires !o.Fetched?
    ensures o.Threw? && o.message.Some? ==> m == o.message.value
    ensures o.NotOk? ==> m == NotOkMessage
    ensures o.Threw? && o.message.None? ==> m == UnknownErrorMessage
  {
    match o
    case NotOk => NotOkMessage
    case Threw(msg) => msg.GetOr(UnknownErrorMessage)
  }

  /** Whether `load` sends a request from this status. */
  predicate WillRequest(s: Status) {
    s == Idle || s == Failed
  }

  /** The part of `loadJobCategories` before the await: the re-entry guard,
      then the switch to loading. `issued` says whether a request goes out. */
  function Start(l: Loader): (r: (Loader, bool))
    ensures var (next, issued) := r;
      && (issued <==> WillRequest(l.status))
      && (issued ==> next.status == Loading && next.categories == l.categories && next.error == l.error)
      && (!issued ==> next == l)
  {
    if l.status == Loading || l.status == Loaded then (l, false)
    else (l.(status := Loading), true)
  }

  /** The part after the await. A list replaces the categories and clears the
      error; a failure records its message and keeps the old categories. */
  function Settle(l: Loader, o: FetchOutcome): (r: Loader)
    ensures r.status == (if o.Fetched? then Loaded else Failed)
    ensures o.Fetched? ==> r.categories == o.list && r.error == None
    ensures !o.Fetched? ==> r.categories == l.categories && r.error == Some(FailureMessage(o))
  {
    match o
    case Fetched(list) => l.(categories := list, error := None, status := Loaded)
    case _ => l.(error := Some(FailureMessage(o)), status := Failed)
  }

  /** One `load` call run to completion, `o` being what the request would
      return. Returns the new state and whether the request was sent: it is
      sent exactly when the status allowed it, a turned-away call changes
      nothing, and a sent one ends loaded or in error, never idle or loading. */
  function Load(l: Loader, o: FetchOutcome): (r: (Loader, bool))
    ensures r.1 <==> l.status == Idle || l.status == Failed
    ensures !r.1 ==> r.0 == l
    ensures r.1 ==> r.0.status == (if o.Fetched? then Loaded else Failed)
  {
    var (started, issued) := Start(l);
    if issued then (Settle(started, o), true) else (started, false)
  }

  /** A sequence of `load` calls, each with its own outcome. */
  function LoadAll(l: Loader, os: seq<FetchOutcome>): Loader
    decreases |os|
  {
    if os == [] then l else LoadAll(Load(l, os[0]).0, os[1..])
  }

  /** The number of requests a sequence of `load` calls sends. */
  function Requests(l: Loader, os: seq<FetchOutcome>): (n: nat)
    ensures n <= |os|
    decreases |os|
  {
    if os == [] then 0
    else
      var (next, issued) := Load(l, os[0]);
      (if issued then 1 else 0) + Requests(next, os[1..])
  }

  /** Starting twice in a row sends at most one request: the second start
      sends nothing and changes nothing. */
  lemma SecondStartSendsNothing(l: Loader)
    ensures !Start(Start(l).0).1
    ensures Start(Start(l).0).0 == Start(l).0
  {
  }

  /** Once loaded, no sequence of `load` calls sends a request or changes
      anything. */
  lemma {:induction false} LoadedIsFinal(l: Loader, os: seq<FetchOutcome>)
    requires l.status == Loaded
    ensures LoadAll(l, os) == l
    ensures Requests(l, os) == 0
    decreases |os|
  {
    if os != [] {
      LoadedIsFinal(l, os[1..]);
    }
  }

  /** Every call either sends a request or is turned away, so a sequence of
      calls sends at most one request per call, and after the first
      successful one, none. */
  lemma {:induction false} RequestsAfterSuccess(l: Loader, os: seq<FetchOutcome>, k: nat)
    requires l.status != Loading
    requires k < |os| && os[k].Fetched?
    ensures LoadAll(l, os[..k + 1]).status == Loaded
    ensures Requests(l, os) <= k + 1
    decreases k
  {
    var next := Load(l, os[0]).0;
    assert os[..k + 1][1..] == os[1..][..k];
    if k == 0 {
      assert os[..1][1..] == [];
      LoadedIsFinal(next, os[1..]);
    } else {
      RequestsAfterSuccess(next, os[1..], k - 1);
    }
  }

  /** What the status says about the rest of the state: idle and loaded
      carry no error, a failed load always carries one. */
  predicate Consistent(l: Loader) {
    && (l.status == Idle ==> l.error == None && l.categories == [])
    && (l.status == Loaded ==> l.error == None)
    && (l.status == Failed ==> l.error.Some?)
  }

  /** Every sequence of calls from a settled, consistent state ends settled
      and consistent, and it is idle only if it started idle and no call was
      made: the automatic load on entering the address step can fire once. */
  lemma {:induction false} LoadAllConsistent(l: Loader, os: seq<FetchOutcome>)
    requires Consistent(l) && l.status != Loading
    ensures Consistent(LoadAll(l, os))
    ensures LoadAll(l, os).status != Loading
    ensures LoadAll(l, os).status == Idle <==> l.status == Idle && os == []
    decreases |os|
  {
    if os != [] {
      var next := Load(l, os[0]).0;
      assert next.status != Idle;
      LoadAllConsistent(next, os[1..]);
    }
  }
}
