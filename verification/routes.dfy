/** The application shell (src/App.tsx): the table of steps, the progress
    index taken from the current pathname, and the route table with its
    redirects. Route patterns are matched as exact strings. */
module Routes {
  import opened Text
  import opened FormTypes

  /** The three pages of the wizard. */
  datatype Step = Personal | Address | Loan

  /** The `steps` table, in order. */
  const Steps: seq<Step> := [Personal, Address, Loan]

  function PathOf(s: Step): string {
    match s
    case Personal => "/personal"
    case Address => "/address"
    case Loan => "/loan"
  }

  function Label(s: Step): string {
    match s
    case Personal => "Шаг 1 · Личные данные"
    case Address => "Шаг 2 · Адрес и работа"
    case Loan => "Шаг 3 · Параметры займа"
  }

  /** The position of a step in the table. */
  function IndexOf(s: Step): (i: nat)
    ensures i < |Steps| && Steps[i] == s
  {
    match s
    case Personal => 0
    case Address => 1
    case Loan => 2
  }

  /** `paths.findIndex(p => pathname.startsWith(p))`: the first position
      whose path prefixes `pathname`, or -1 when there is none. */
  function FindPrefix(pathname: string, paths: seq<string>): (i: int)
    ensures -1 <= i < |paths|
    ensures i >= 0 ==> StartsWith(pathname, paths[i])
    ensures i >= 0 ==> forall j :: 0 <= j < i ==> !StartsWith(pathname, paths[j])
    ensures i == -1 <==> forall j :: 0 <= j < |paths| ==> !StartsWith(pathname, paths[j])
  {
    if paths == [] then -1
    else if StartsWith(pathname, paths[0]) then 0
    else
      var k := FindPrefix(pathname, paths[1..]);
      if k < 0 then -1 else k + 1
  }

  const StepPaths: seq<string> := [PathOf(Personal), PathOf(Address), PathOf(Loan)]

  /** `Math.max(steps.findIndex(...), 0)`: the step whose path prefixes the
      pathname, the first step when none does. */
  function CurrentStepIndex(pathname: string): (i: nat)
    ensures i < |Steps|
    ensures forall s :: StartsWith(pathname, PathOf(s)) ==> i == IndexOf(s)
    ensures (forall s :: !StartsWith(pathname, PathOf(s))) ==> i == 0
  {
    var k := FindPrefix(pathname, StepPaths);
    assert forall s :: PathOf(s) == StepPaths[IndexOf(s)];
    PrefixesExclusive(pathname);
    if k < 0 then 0 else k
  }

  /** No pathname starts with two different step paths: they differ in their
      second character. */
  lemma PrefixesExclusive(pathname: string)
    ensures forall s, t :: StartsWith(pathname, PathOf(s)) && StartsWith(pathname, PathOf(t)) ==> s == t
  {
    forall s, t | StartsWith(pathname, PathOf(s)) && StartsWith(pathname, PathOf(t))
      ensures s == t
    {
      assert pathname[1] == PathOf(s)[1] == PathOf(t)[1];
    }
  }

  /** The progress line: `steps[currentStepIndex]?.label`. */
  function ProgressLabel(pathname: string): (l: string)
    ensures forall s :: StartsWith(pathname, PathOf(s)) ==> l == Label(s)
    ensures (forall s :: !StartsWith(pathname, PathOf(s))) ==> l == Label(Personal)
  {
    Label(Steps[CurrentStepIndex(pathname)])
  }

  /** What the route table does with a pathname. */
  datatype Outcome = Render(step: Step) | Redirect(target: string)

  /** The `<Routes>` table: each step path renders its page; the root and
      every other path redirect to the first step. */
  function Resolve(pathname: string): (o: Outcome)
    ensures o.Render? <==> exists s :: pathname == PathOf(s)
    ensures o.Render? ==> pathname == PathOf(o.step)
    ensures o.Redirect? ==> o.target == PathOf(Personal)
  {
    if pathname == "/" then Redirect(PathOf(Personal))
    else if pathname == PathOf(Personal) then Render(Personal)
    else if pathname == PathOf(Address) then Render(Address)
    else if pathname == PathOf(Loan) then Render(Loan)
    else Redirect(PathOf(Personal))
  }

  /** A redirect lands on a page in one hop, and the progress line always
      names the page that is rendered. */
  lemma ResolveSettles(pathname: string)
    ensures Resolve(pathname).Redirect? ==> Resolve(Resolve(pathname).target) == Render(Personal)
    ensures Resolve(pathname).Render? ==> CurrentStepIndex(pathname) == IndexOf(Resolve(pathname).step)
  {
    if Resolve(pathname).Render? {
      var s := Resolve(pathname).step;
      assert pathname[..|PathOf(s)|] == PathOf(s);
    }
  }
}
