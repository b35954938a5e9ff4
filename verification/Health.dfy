/**
 The health worker: named checks carry tags, and per-tag gauges count the failing ones
 incrementally. A failing application check counts in every registered tag.
 */
module Health {
  import opened Common

  /** Check names and tags are identifiers; two tags have a special role. */
  type Name = int
  type Tag = int
  const ALL: Tag := 0
  const APPLICATION: Tag := 1

  datatype Result = Result(failed: bool, contiguousFailures: nat, firstFailure: Option<nat>)

  const NOT_YET_RUN := Result(true, 0, None)

  datatype Checker = Checker(isApplication: bool, tags: seq<Tag>)

  datatype Error = RestrictedTag | DuplicateCheck

  function TagSet(tags: map<Tag, set<Name>>, t: Tag): set<Name> {
    if t in tags then tags[t] else {}
  }

  function Gauge(gauges: map<Tag, int>, t: Tag): int {
    if t in gauges then gauges[t] else 0
  }

  /** The full recount: the failing checks of a tag or of the application tag. */
  ghost function FailingIn(results: map<Name, Result>, tags: map<Tag, set<Name>>, t: Tag): set<Name> {
    FailingOf(results, TagSet(tags, t) + TagSet(tags, APPLICATION))
  }

  ghost function FailingOf(results: map<Name, Result>, names: set<Name>): set<Name> {
    set n | n in names && n in results && results[n].failed
  }

  ghost predicate GaugesExact(gauges: map<Tag, int>, failingApplication: int, results: map<Name, Result>,
                              tags: map<Tag, set<Name>>)
  {
    && failingApplication == |FailingIn(results, tags, APPLICATION)|
    && (forall t :: t in tags ==> Gauge(gauges, t) == |FailingIn(results, tags, t)|)
    && (forall t :: t !in tags ==> Gauge(gauges, t) == 0)
  }

  ghost predicate NoRepeats(tags: seq<Tag>) {
    forall i, j :: 0 <= i < j < |tags| ==> tags[i] != tags[j]
  }

  /** Tags a registration leaves: the check's own, and the tag of all checks. */
  ghost function WithCheck(tags: map<Tag, set<Name>>, name: Name, list: seq<Tag>): map<Tag, set<Name>> {
    map t | t in tags.Keys + (set x | x in list) + {ALL} ::
      if t in list || t == ALL then TagSet(tags, t) + {name} else TagSet(tags, t)
  }

  // ---- How the recount changes ----

  lemma TagSetWithCheck(tags: map<Tag, set<Name>>, name: Name, list: seq<Tag>, t: Tag)
    ensures TagSet(WithCheck(tags, name, list), t) == TagSet(tags, t) + if t in list || t == ALL then {name} else {}
  {
  }

  /** Registering a check, failing until it first runs. */
  lemma RecountRegister(results: map<Name, Result>, tags: map<Tag, set<Name>>, name: Name, list: seq<Tag>, t: Tag)
    requires name !in results && (forall x :: x in tags ==> name !in tags[x])
    ensures var results', tags' := results[name := NOT_YET_RUN], WithCheck(tags, name, list);
            |FailingIn(results', tags', t)| ==
            |FailingIn(results, tags, t)| + if t in list || t == ALL || APPLICATION in list then 1 else 0
  {
    hide WithCheck, FailingOf;
    var names, names' := TagSet(tags, t) + TagSet(tags, APPLICATION),
        TagSet(WithCheck(tags, name, list), t) + TagSet(WithCheck(tags, name, list), APPLICATION);
    TagSetWithCheck(tags, name, list, t);
    TagSetWithCheck(tags, name, list, APPLICATION);
    assert names' == names + if t in list || t == ALL || APPLICATION in list then {name} else {};
    OneMoreFailing(results, names, name);
  }

  lemma OneMoreFailing(results: map<Name, Result>, names: set<Name>, name: Name)
    requires name !in results && name !in names
    ensures |FailingOf(results[name := NOT_YET_RUN], names + {name})| == |FailingOf(results, names)| + 1
    ensures FailingOf(results[name := NOT_YET_RUN], names + {}) == FailingOf(results, names)
  {
    assert FailingOf(results[name := NOT_YET_RUN], names + {name}) == FailingOf(results, names) + {name};
  }

  /** A check starting to fail or to pass. */
  lemma RecountRun(results: map<Name, Result>, tags: map<Tag, set<Name>>, name: Name, r: Result, t: Tag)
    requires name in results
    ensures var counted := name in TagSet(tags, t) || name in TagSet(tags, APPLICATION);
            |FailingIn(results[name := r], tags, t)| ==
            |FailingIn(results, tags, t)| +
            (if counted && r.failed && !results[name].failed then 1
             else if counted && !r.failed && results[name].failed then -1 else 0)
  {
    var before, after := FailingIn(results, tags, t), FailingIn(results[name := r], tags, t);
    if name in TagSet(tags, t) || name in TagSet(tags, APPLICATION) {
      if r.failed && !results[name].failed {
        assert after == before + {name} && name !in before;
      } else if !r.failed && results[name].failed {
        assert before == after + {name} && name !in after;
      } else {
        assert before == after;
      }
    } else {
      assert before == after;
    }
  }

  lemma {:induction false} CountIsMultiplicity(list: seq<Tag>, t: Tag)
    ensures NoRepeats(list) ==> multiset(list)[t] == if t in list then 1 else 0
    ensures !NoRepeats(list) ==> exists x :: multiset(list)[x] >= 2
    ensures multiset(list)[t] > 0 <==> t in list
  {
    if list != [] {
      var last, rest := list[|list| - 1], list[..|list| - 1];
      assert list == rest + [last];
      CountIsMultiplicity(rest, t);
      CountIsMultiplicity(rest, last);
      if NoRepeats(list) {
        assert last !in rest;
      } else if NoRepeats(rest) {
        assert last in rest;
        assert multiset(list)[last] >= 2;
      } else {
        var x :| multiset(rest)[x] >= 2;
        assert multiset(list)[x] >= 2;
      }
    }
  }

  /** When a registration keeps the gauges exact. */
  ghost predicate Countable(failingApplication: int, tags: map<Tag, set<Name>>, list: seq<Tag>) {
    if APPLICATION in list then failingApplication == 0 || forall t :: t in list ==> t in tags
    else NoRepeats(list)
  }

  /** A tag nobody registered sees the failing application checks only. */
  lemma Unregistered(results: map<Name, Result>, tags: map<Tag, set<Name>>, t: Tag)
    requires t !in tags
    ensures FailingIn(results, tags, t) == FailingIn(results, tags, APPLICATION)
  {
    assert TagSet(tags, t) + TagSet(tags, APPLICATION) == TagSet(tags, APPLICATION) + TagSet(tags, APPLICATION);
  }

  /** What registering an application check does to one gauge, against the recount. */
  lemma RegisterApplication(gauges: map<Tag, int>, gauges': map<Tag, int>, failing: int, results: map<Name, Result>,
                            tags: map<Tag, set<Name>>, name: Name, list: seq<Tag>)
    requires GaugesExact(gauges, failing, results, tags) && APPLICATION in list
    requires name !in results && (forall x :: x in tags ==> name !in tags[x]) && (ALL in tags || failing == 0)
    requires forall t :: Gauge(gauges', t) == Gauge(gauges, t) + if t in WithCheck(tags, name, list) then 1 else 0
    ensures GaugesExact(gauges', failing + 1, results[name := NOT_YET_RUN], WithCheck(tags, name, list)) <==>
            Countable(failing, tags, list)
  {
    hide FailingIn, WithCheck;
    var results', tags' := results[name := NOT_YET_RUN], WithCheck(tags, name, list);
    forall t
      ensures |FailingIn(results', tags', t)| == |FailingIn(results, tags, t)| + 1
      ensures t !in tags ==> |FailingIn(results, tags, t)| == failing
      ensures t in tags' <==> t in tags || t in list || t == ALL
    {
      RecountRegister(results, tags, name, list, t);
      WithCheckKeys(tags, name, list, t);
      if t !in tags { Unregistered(results, tags, t); }
    }
    if failing != 0 && exists t :: t in list && t !in tags {
      var t :| t in list && t !in tags;
      assert t in tags' && Gauge(gauges', t) == 1;
    }
  }

  /** What registering any other check does. */
  lemma RegisterPlain(gauges: map<Tag, int>, gauges': map<Tag, int>, failing: int, results: map<Name, Result>,
                      tags: map<Tag, set<Name>>, name: Name, list: seq<Tag>)
    requires GaugesExact(gauges, failing, results, tags) && APPLICATION !in list && ALL !in list
    requires name !in results && (forall x :: x in tags ==> name !in tags[x] && tags[x] != {})
    requires ALL in tags || failing == 0
    requires forall t :: Gauge(gauges', t) ==
               Gauge(gauges, t) + multiset(list)[t] * (if t in tags then 1 else 1 + failing) + if t == ALL then 1 else 0
    ensures GaugesExact(gauges', failing, results[name := NOT_YET_RUN], WithCheck(tags, name, list)) <==>
            NoRepeats(list)
  {
    hide FailingIn, WithCheck, NoRepeats;
    var results', tags' := results[name := NOT_YET_RUN], WithCheck(tags, name, list);
    forall t
      ensures |FailingIn(results', tags', t)| == |FailingIn(results, tags, t)| + if t in list || t == ALL then 1 else 0
      ensures t !in tags ==> |FailingIn(results, tags, t)| == failing
      ensures NoRepeats(list) ==> multiset(list)[t] == if t in list then 1 else 0
      ensures multiset(list)[t] > 0 <==> t in list
      ensures t in tags' <==> t in tags || t in list || t == ALL
    {
      PlainTag(gauges, failing, results, tags, name, list, t);
    }
    if !NoRepeats(list) {
      CountIsMultiplicity(list, ALL);
      var t :| multiset(list)[t] >= 2;
      Twice(multiset(list)[t], failing);
      assert t in tags' && Gauge(gauges', t) > |FailingIn(results', tags', t)|;
    }
  }

  lemma PlainTag(gauges: map<Tag, int>, failing: int, results: map<Name, Result>, tags: map<Tag, set<Name>>, name: Name,
                 list: seq<Tag>, t: Tag)
    requires GaugesExact(gauges, failing, results, tags) && APPLICATION !in list
    requires name !in results && forall x :: x in tags ==> name !in tags[x]
    ensures |FailingIn(results[name := NOT_YET_RUN], WithCheck(tags, name, list), t)| ==
            |FailingIn(results, tags, t)| + if t in list || t == ALL then 1 else 0
    ensures t !in tags ==> |FailingIn(results, tags, t)| == failing
    ensures NoRepeats(list) ==> multiset(list)[t] == if t in list then 1 else 0
    ensures multiset(list)[t] > 0 <==> t in list
    ensures t in WithCheck(tags, name, list) <==> t in tags || t in list || t == ALL
  {
    hide FailingIn, WithCheck, NoRepeats;
    RecountRegister(results, tags, name, list, t);
    WithCheckKeys(tags, name, list, t);
    CountIsMultiplicity(list, t);
    if t !in tags { Unregistered(results, tags, t); }
  }

  lemma Twice(k: int, failing: int)
    requires k >= 2 && failing >= 0
    ensures k * (1 + failing) > 1 + failing
  {
  }

  /** A passing check has no failures on record; recorded failures have a start. */
  predicate ResultOk(r: Result) {
    (!r.failed ==> r.contiguousFailures == 0) && (r.contiguousFailures > 0 <==> r.firstFailure.Some?)
  }

  /** Every check has a result, and only checks do. */
  ghost predicate ResultsFit(checks: map<Name, Checker>, results: map<Name, Result>) {
    results.Keys == checks.Keys && forall n :: n in results ==> ResultOk(results[n])
  }

  /** Tags hold checks, at least one each. */
  ghost predicate TagsKnown(checks: map<Name, Checker>, tags: map<Tag, set<Name>>) {
    forall t :: t in tags ==> tags[t] <= checks.Keys && tags[t] != {}
  }

  /** A check is in exactly its own tags and the tag of all checks. */
  ghost predicate TagsFit(checks: map<Name, Checker>, tags: map<Tag, set<Name>>) {
    && (forall n, t :: n in checks ==> (n in TagSet(tags, t) <==> t in checks[n].tags || t == ALL))
    && (forall n :: n in checks ==>
        ALL !in checks[n].tags && (checks[n].isApplication <==> APPLICATION in checks[n].tags))
  }

  ghost predicate Fits(checks: map<Name, Checker>, results: map<Name, Result>, tags: map<Tag, set<Name>>) {
    ResultsFit(checks, results) && TagsKnown(checks, tags) && TagsFit(checks, tags)
  }

  /** Before the first registration nothing fails. */
  lemma NothingFails(checks: map<Name, Checker>, results: map<Name, Result>, tags: map<Tag, set<Name>>)
    requires Fits(checks, results, tags)
    ensures ALL in tags || |FailingIn(results, tags, APPLICATION)| == 0
  {
    if ALL !in tags {
      forall n ensures n !in results {
        assert n in checks ==> n in TagSet(tags, ALL);
      }
      assert FailingIn(results, tags, APPLICATION) == {};
    }
  }

  lemma WithCheckKeys(tags: map<Tag, set<Name>>, name: Name, list: seq<Tag>, t: Tag)
    ensures t in WithCheck(tags, name, list) <==> t in tags || t in list || t == ALL
  {
  }

  /** A name not yet registered is in no tag, and a tag holds one name right after iff it is new. */
  lemma FreshName(checks: map<Name, Checker>, results: map<Name, Result>, tags: map<Tag, set<Name>>, name: Name,
                  list: seq<Tag>)
    requires Fits(checks, results, tags) && name !in checks
    ensures forall t :: t in tags ==> name !in tags[t] && tags[t] != {}
    ensures forall t :: t in list ==> (|TagSet(WithCheck(tags, name, list), t)| == 1 <==> t !in tags)
  {
    hide WithCheck;
    forall t | t in list ensures |TagSet(WithCheck(tags, name, list), t)| == 1 <==> t !in tags {
      TagSetWithCheck(tags, name, list, t);
      assert |TagSet(tags, t) + {name}| == |TagSet(tags, t)| + 1;
      assert t in tags ==> |tags[t]| > 0;
    }
  }

  lemma FitsWithCheck(checks: map<Name, Checker>, results: map<Name, Result>, tags: map<Tag, set<Name>>, name: Name,
                      list: seq<Tag>)
    requires Fits(checks, results, tags) && name !in checks && ALL !in list
    ensures Fits(checks[name := Checker(APPLICATION in list, list)], results[name := NOT_YET_RUN],
                 WithCheck(tags, name, list))
  {
    assert ResultsFit(checks[name := Checker(APPLICATION in list, list)], results[name := NOT_YET_RUN]);
    hide ResultsFit, TagsKnown, TagsFit, WithCheck;
    KnownWithCheck(checks, tags, name, list);
    TagsWithCheck(checks, tags, name, list);
  }

  lemma KnownWithCheck(checks: map<Name, Checker>, tags: map<Tag, set<Name>>, name: Name, list: seq<Tag>)
    requires TagsKnown(checks, tags)
    ensures TagsKnown(checks[name := Checker(APPLICATION in list, list)], WithCheck(tags, name, list))
  {
    hide WithCheck;
    var tags' := WithCheck(tags, name, list);
    forall t | t in tags' ensures tags'[t] <= checks.Keys + {name} && tags'[t] != {} {
      TagSetWithCheck(tags, name, list, t);
      WithCheckKeys(tags, name, list, t);
      assert tags'[t] == TagSet(tags', t);
      assert t in list || t == ALL ==> name in tags'[t];
    }
  }

  lemma TagsWithCheck(checks: map<Name, Checker>, tags: map<Tag, set<Name>>, name: Name, list: seq<Tag>)
    requires TagsKnown(checks, tags) && TagsFit(checks, tags) && name !in checks && ALL !in list
    ensures TagsFit(checks[name := Checker(APPLICATION in list, list)], WithCheck(tags, name, list))
  {
    hide WithCheck;
    var tags' := WithCheck(tags, name, list);
    forall t
      ensures TagSet(tags', t) == TagSet(tags, t) + if t in list || t == ALL then {name} else {}
      ensures name !in TagSet(tags, t)
    {
      TagSetWithCheck(tags, name, list, t);
    }
    hide TagsKnown, TagSet;
  }

  lemma FailingCount(gauges: map<Tag, int>, failing: int, results: map<Name, Result>, tags: map<Tag, set<Name>>)
    requires GaugesExact(gauges, failing, results, tags)
    ensures failing == |FailingIn(results, tags, APPLICATION)|
  {
  }

  lemma SameNames(checks: map<Name, Checker>, results: map<Name, Result>, tags: map<Tag, set<Name>>, name: Name)
    requires Fits(checks, results, tags)
    ensures name in checks <==> name in results
  {
  }

  /** What a registration does to the gauges and to the count of failing application checks. */
  ghost predicate Entered(gauges: map<Tag, int>, gauges': map<Tag, int>, failing: int, failing': int,
                          tags': map<Tag, set<Name>>, list: seq<Tag>)
  {
    if APPLICATION in list then
      failing' == failing + 1 && forall t :: Gauge(gauges', t) == Gauge(gauges, t) + if t in tags' then 1 else 0
    else
      && failing' == failing
      && forall t :: Gauge(gauges', t) == Gauge(gauges, t)
           + multiset(list)[t] * (if |TagSet(tags', t)| == 1 then 1 + failing else 1) + if t == ALL then 1 else 0
  }

  lemma RegisterExact(checks: map<Name, Checker>, results: map<Name, Result>, tags: map<Tag, set<Name>>, name: Name,
                      list: seq<Tag>, gauges: map<Tag, int>, gauges': map<Tag, int>, failing: int, failing': int)
    requires Fits(checks, results, tags) && GaugesExact(gauges, failing, results, tags)
    requires name !in checks && ALL !in list
    requires Entered(gauges, gauges', failing, failing', WithCheck(tags, name, list), list)
    ensures GaugesExact(gauges', failing', results[name := NOT_YET_RUN], WithCheck(tags, name, list)) <==>
            Countable(failing, tags, list)
    ensures Countable(failing, tags, list) ==> APPLICATION in list || NoRepeats(list)
  {
    hide WithCheck, FailingIn, GaugesExact, Fits;
    NothingFails(checks, results, tags);
    FailingCount(gauges, failing, results, tags);
    FreshName(checks, results, tags, name, list);
    SameNames(checks, results, tags, name);
    if APPLICATION in list {
      RegisterApplication(gauges, gauges', failing, results, tags, name, list);
    } else {
      forall t ensures multiset(list)[t] * (if |TagSet(WithCheck(tags, name, list), t)| == 1 then 1 + failing else 1) ==
                       multiset(list)[t] * (if t in tags then 1 else 1 + failing)
      {
        CountIsMultiplicity(list, t);
      }
      RegisterPlain(gauges, gauges', failing, results, tags, name, list);
    }
  }

  /** A failing report extends the run of failures, a passing one ends it. */
  function Reported(previous: Result, failed: bool, now: nat): Result {
    if !failed then Result(false, 0, None)
    else if previous.firstFailure.Some? then Result(true, previous.contiguousFailures + 1, previous.firstFailure)
    else Result(true, 1, Some(now))
  }

  /** One outcome of a check and when it came. */
  datatype Report = Report(failed: bool, now: nat)

  /** The result after some reports, the last one last. */
  function AfterReports(start: Result, reports: seq<Report>): Result {
    if reports == [] then start
    else
      var last := reports[|reports| - 1];
      Reported(AfterReports(start, reports[..|reports| - 1]), last.failed, last.now)
  }

  /** The last k reports failed, and the one before them, if any, passed. */
  ghost predicate FailingRun(reports: seq<Report>, k: nat) {
    && k <= |reports|
    && (forall j :: |reports| - k <= j < |reports| ==> reports[j].failed)
    && (k < |reports| ==> !reports[|reports| - k - 1].failed)
  }

  /** Contiguous failures count the current run of failing reports; the first of them gives the time. */
  lemma {:induction false} ReportsMean(reports: seq<Report>, k: nat)
    requires FailingRun(reports, k) && reports != []
    ensures AfterReports(NOT_YET_RUN, reports) ==
            Result(k > 0, k, if k > 0 then Some(reports[|reports| - k].now) else None)
  {
    var before := reports[..|reports| - 1];
    if k > 0 && before != [] {
      assert FailingRun(before, k - 1);
      ReportsMean(before, k - 1);
    }
  }

  lemma KnownResult(checks: map<Name, Checker>, results: map<Name, Result>, tags: map<Tag, set<Name>>, name: Name)
    requires Fits(checks, results, tags) && name in checks
    ensures name in results && ResultOk(results[name])
  {
  }

  lemma FitsReport(checks: map<Name, Checker>, results: map<Name, Result>, tags: map<Tag, set<Name>>, name: Name,
                   r: Result)
    requires Fits(checks, results, tags) && name in checks && ResultOk(r)
    ensures Fits(checks, results[name := r], tags)
  {
    hide TagsKnown, TagsFit;
  }

  /** Moving a check's own gauges, or all of them for an application check, is the recount. */
  lemma RunExact(checks: map<Name, Checker>, results: map<Name, Result>, tags: map<Tag, set<Name>>, name: Name,
                 r: Result, gauges: map<Tag, int>, gauges': map<Tag, int>, failing: int, failing': int)
    requires Fits(checks, results, tags) && GaugesExact(gauges, failing, results, tags) && name in checks
    requires name in results
    requires checks[name].isApplication || NoRepeats(checks[name].tags)
    requires Moved(gauges, gauges', failing, failing', tags, checks[name], Change(results[name], r))
    ensures GaugesExact(gauges', failing', results[name := r], tags)
  {
    hide FailingIn, Fits, NoRepeats;
    forall t
      ensures |FailingIn(results[name := r], tags, t)| == |FailingIn(results, tags, t)| +
              if checks[name].isApplication || t in checks[name].tags || t == ALL then Change(results[name], r) else 0
      ensures !checks[name].isApplication ==> multiset(checks[name].tags)[t] == if t in checks[name].tags then 1 else 0
      ensures t in checks[name].tags || t == ALL ==> t in tags
      ensures ALL !in checks[name].tags && (checks[name].isApplication <==> APPLICATION in checks[name].tags)
    {
      RunTag(checks, results, tags, name, r, t);
    }
  }

  lemma RunTag(checks: map<Name, Checker>, results: map<Name, Result>, tags: map<Tag, set<Name>>, name: Name,
               r: Result, t: Tag)
    requires Fits(checks, results, tags) && name in checks && name in results
    requires checks[name].isApplication || NoRepeats(checks[name].tags)
    ensures |FailingIn(results[name := r], tags, t)| == |FailingIn(results, tags, t)| +
            if checks[name].isApplication || t in checks[name].tags || t == ALL then Change(results[name], r) else 0
    ensures !checks[name].isApplication ==> multiset(checks[name].tags)[t] == if t in checks[name].tags then 1 else 0
    ensures t in checks[name].tags || t == ALL ==> t in tags
    ensures ALL !in checks[name].tags && (checks[name].isApplication <==> APPLICATION in checks[name].tags)
  {
    hide FailingIn;
    RecountRun(results, tags, name, r, t);
    CountIsMultiplicity(checks[name].tags, t);
    assert name in TagSet(tags, t) <==> t in checks[name].tags || t == ALL;
    assert name in TagSet(tags, APPLICATION) <==> APPLICATION in checks[name].tags;
  }

  function Change(was: Result, now: Result): int {
    if now.failed == was.failed then 0 else if now.failed then 1 else -1
  }

  ghost predicate Moved(gauges: map<Tag, int>, gauges': map<Tag, int>, failing: int, failing': int,
                        tags: map<Tag, set<Name>>, checker: Checker, delta: int)
  {
    if checker.isApplication then
      failing' == failing + delta && forall t :: Gauge(gauges', t) == Gauge(gauges, t) + if t in tags then delta else 0
    else
      && failing' == failing
      && forall t :: Gauge(gauges', t) ==
                     Gauge(gauges, t) + multiset(checker.tags)[t] * delta + if t == ALL then delta else 0
  }

  /** The checks a query for some tags covers. */
  function Covered(tags: map<Tag, set<Name>>, list: seq<Tag>): set<Name> {
    NamesOf(tags, (if list == [] then {ALL} else set x | x in list) + {APPLICATION})
  }

  function NamesOf(tags: map<Tag, set<Name>>, chosen: set<Tag>): set<Name> {
    set t, n | t in chosen && n in TagSet(tags, t) :: n
  }

  lemma OneMoreTag(tags: map<Tag, set<Name>>, chosen: set<Tag>, t: Tag)
    ensures NamesOf(tags, chosen + {t}) == NamesOf(tags, chosen) + TagSet(tags, t)
  {
    forall n ensures n in NamesOf(tags, chosen + {t}) <==> n in NamesOf(tags, chosen) + TagSet(tags, t) {
      if n in TagSet(tags, t) { assert t in chosen + {t}; }
      if n in NamesOf(tags, chosen) {
        var x :| x in chosen && n in TagSet(tags, x);
        assert x in chosen + {t};
      }
    }
  }

  lemma NoneFailing(results: map<Name, Result>, names: set<Name>)
    ensures FailingOf(results, names) == {} <==> forall n :: n in names && n in results ==> !results[n].failed
  {
    var failing := FailingOf(results, names);
    if failing == {} {
      assert forall n :: n in names && n in results && results[n].failed ==> n in failing;
    }
    if forall n :: n in names && n in results ==> !results[n].failed {
      assert failing == {};
    }
  }

  lemma CoveredByOne(tags: map<Tag, set<Name>>, t: Tag)
    ensures NamesOf(tags, {t} + {APPLICATION}) == TagSet(tags, t) + TagSet(tags, APPLICATION)
  {
    assert {} + {t} == {t} && NamesOf(tags, {}) == {};
    OneMoreTag(tags, {}, t);
    OneMoreTag(tags, {t}, APPLICATION);
  }

  lemma CoveredKnown(checks: map<Name, Checker>, results: map<Name, Result>, tags: map<Tag, set<Name>>, list: seq<Tag>)
    requires Fits(checks, results, tags)
    ensures Covered(tags, list) <= results.Keys
  {
    forall n | n in Covered(tags, list) ensures n in results {
      var t :| n in TagSet(tags, t);
    }
  }

  /** A query covers the checks that carry one of its tags, and every application check. */
  lemma CoveredIff(checks: map<Name, Checker>, results: map<Name, Result>, tags: map<Tag, set<Name>>, list: seq<Tag>,
                   n: Name)
    requires Fits(checks, results, tags)
    ensures n in Covered(tags, list) <==>
            && n in checks
            && (list == [] || ALL in list || checks[n].isApplication || exists t :: t in list && t in checks[n].tags)
  {
    var chosen := (if list == [] then {ALL} else set x | x in list) + {APPLICATION};
    if n in Covered(tags, list) {
      var t :| t in chosen && n in TagSet(tags, t);
      assert n in checks && (t in checks[n].tags || t == ALL);
    } else if n in checks {
      assert forall t :: t in chosen ==> n !in TagSet(tags, t);
      assert APPLICATION in chosen;
      assert forall t :: t in list ==> t in chosen;
    }
  }

  lemma CoveredMeans(checks: map<Name, Checker>, results: map<Name, Result>, tags: map<Tag, set<Name>>, list: seq<Tag>)
    requires Fits(checks, results, tags)
    ensures Covered(tags, list) <= results.Keys
    ensures forall t :: list == [t] || (list == [] && t == ALL) ==>
            FailingOf(results, Covered(tags, list)) == FailingIn(results, tags, t)
    ensures ALL in tags || |FailingIn(results, tags, ALL)| == 0
  {
    hide Fits, FailingOf, NamesOf;
    CoveredKnown(checks, results, tags, list);
    forall t | list == [t] || (list == [] && t == ALL)
      ensures Covered(tags, list) == TagSet(tags, t) + TagSet(tags, APPLICATION)
    {
      assert list == [t] ==> (set x | x in list) == {t};
      CoveredByOne(tags, t);
    }
    NothingFails(checks, results, tags);
    if ALL !in tags { Unregistered(results, tags, ALL); }
  }

  class Worker {
    var checks: map<Name, Checker>
    var results: map<Name, Result>
    var numFailingApplicationChecks: int
    var tags: map<Tag, set<Name>>
    var failingChecks: map<Tag, int>

    /** The registered checks, their tags and their results fit together. */
    ghost predicate Valid()
      reads this
    {
      Fits(checks, results, tags)
    }

    ghost predicate Exact()
      reads this
    {
      && GaugesExact(failingChecks, numFailingApplicationChecks, results, tags)
      && forall n :: n in checks ==> checks[n].isApplication || NoRepeats(checks[n].tags)
    }

    constructor ()
      ensures Valid() && Exact() && checks == map[] && results == map[] && tags == map[]
      ensures numFailingApplicationChecks == 0
    {
      checks, results, numFailingApplicationChecks, tags := map[], map[], 0, map[];
      failingChecks := map[ALL := 0, APPLICATION := 0];
      new;
      assert FailingOf(results, {}) == {};
    }

    method Bump(t: Tag, delta: int)
      modifies `failingChecks
      ensures failingChecks == old(failingChecks)[t := Gauge(old(failingChecks), t) + delta]
    {
      failingChecks := failingChecks[t := Gauge(failingChecks, t) + delta];
    }

    /** Every registered tag moves by one, in any order. */
    method BumpAll(delta: int)
      modifies `failingChecks
      ensures forall t :: Gauge(failingChecks, t) == Gauge(old(failingChecks), t) + if t in tags then delta else 0
    {
      var todo := tags.Keys;
      while todo != {}
        invariant todo <= tags.Keys
        invariant forall t :: Gauge(failingChecks, t) ==
                              Gauge(old(failingChecks), t) + if t in tags && t !in todo then delta else 0
        decreases todo
      {
        var t := Pick(todo);
        Bump(t, delta);
        todo := todo - {t};
      }
    }

    /** The gauge steps of one tag of a check that is not an application check. */
    function Step(healthy: bool, register: bool, t: Tag): int
      reads this
    {
      if healthy then -1
      else if register && |TagSet(tags, t)| == 1 then 1 + numFailingApplicationChecks
      else 1
    }

    method BumpTags(list: seq<Tag>, healthy: bool, register: bool)
      modifies `failingChecks
      ensures forall t :: Gauge(failingChecks, t) ==
                          Gauge(old(failingChecks), t) + multiset(list)[t] * Step(healthy, register, t)
    {
      for i := 0 to |list|
        invariant forall t :: Gauge(failingChecks, t) ==
                              Gauge(old(failingChecks), t) + multiset(list[..i])[t] * Step(healthy, register, t)
      {
        var t := list[i];
        assert list[..i + 1] == list[..i] + [t];
        ghost var k := multiset(list[..i])[t];
        Distribute(k, Step(healthy, register, t));
        Bump(t, if healthy then -1 else 1);
        if !healthy && register && |TagSet(tags, t)| == 1 {
          Bump(t, numFailingApplicationChecks);
        }
      }
      assert list[..|list|] == list;
    }

    method UpdateMetrics(checker: Checker, healthy: bool, register: bool)
      modifies `failingChecks, `numFailingApplicationChecks
      ensures checker.isApplication ==> var delta := if healthy then -1 else 1;
                && numFailingApplicationChecks == old(numFailingApplicationChecks) + delta
                && forall t :: Gauge(failingChecks, t) == Gauge(old(failingChecks), t) + if t in tags then delta else 0
      ensures !checker.isApplication ==>
                && numFailingApplicationChecks == old(numFailingApplicationChecks)
                && forall t :: Gauge(failingChecks, t) ==
                     Gauge(old(failingChecks), t) + multiset(checker.tags)[t] * Step(healthy, register, t)
                     + if t == ALL then (if healthy then -1 else 1) else 0
    {
      if checker.isApplication {
        BumpAll(if healthy then -1 else 1);
        numFailingApplicationChecks := numFailingApplicationChecks + if healthy then -1 else 1;
      } else {
        BumpTags(checker.tags, healthy, register);
        Bump(ALL, if healthy then -1 else 1);
      }
    }

    /** Adds the check to each of its tags and to the tag of all checks. */
    method AddToTags(name: Name, list: seq<Tag>)
      modifies `tags
      ensures tags == WithCheck(old(tags), name, list)
    {
      ghost var before := tags;
      for i := 0 to |list|
        invariant tags.Keys == before.Keys + set x | x in list[..i]
        invariant forall t :: t in tags ==>
                  tags[t] == if t in list[..i] then TagSet(before, t) + {name} else TagSet(before, t)
      {
        var tag := list[i];
        assert list[..i + 1] == list[..i] + [tag];
        tags := tags[tag := TagSet(tags, tag) + {name}];
      }
      assert list[..|list|] == list;
      tags := tags[ALL := TagSet(tags, ALL) + {name}];
      assert tags.Keys == before.Keys + (set x | x in list) + {ALL};
    }

    /** The effects of a registration that is not refused. */
    method Enter(name: Name, list: seq<Tag>)
      requires name !in TagSet(tags, APPLICATION)
      modifies this
      ensures checks == old(checks)[name := Checker(APPLICATION in list, list)]
      ensures results == old(results)[name := NOT_YET_RUN] && tags == WithCheck(old(tags), name, list)
      ensures Entered(old(failingChecks), failingChecks, old(numFailingApplicationChecks), numFailingApplicationChecks,
                      tags, list)
    {
      hide WithCheck;
      TagSetWithCheck(tags, name, list, APPLICATION);
      AddToTags(name, list);
      var checker := Checker(name in TagSet(tags, APPLICATION), list);
      checks := checks[name := checker];
      results := results[name := NOT_YET_RUN];
      UpdateMetrics(checker, false, true);
    }

    /** A check starts out failing; the gauges stay exact iff the registration is countable. */
    method RegisterCheck(name: Name, list: seq<Tag>) returns (err: Option<Error>)
      requires Valid()
      modifies this
      ensures Valid()
      ensures err == if ALL in list then Some(RestrictedTag)
                     else if name in old(checks) then Some(DuplicateCheck) else None
      ensures err.Some? ==> checks == old(checks) && results == old(results) && tags == old(tags)
                            && failingChecks == old(failingChecks)
                            && numFailingApplicationChecks == old(numFailingApplicationChecks)
      ensures err.None? ==> checks == old(checks)[name := Checker(APPLICATION in list, list)]
                            && results == old(results)[name := NOT_YET_RUN] && tags == WithCheck(old(tags), name, list)
      ensures err.None? && old(Exact()) ==>
                (GaugesExact(failingChecks, numFailingApplicationChecks, results, tags) <==>
                 Countable(old(numFailingApplicationChecks), old(tags), list))
      ensures err.None? && old(Exact()) && Countable(old(numFailingApplicationChecks), old(tags), list) ==> Exact()
    {
      if ALL in list {
        return Some(RestrictedTag);
      }
      if name in checks {
        return Some(DuplicateCheck);
      }
      hide WithCheck, FailingIn, GaugesExact, Fits, Entered;
      FreshName(checks, results, tags, name, list);
      FitsWithCheck(checks, results, tags, name, list);
      Enter(name, list);
      if old(Exact()) {
        RegisterExact(old(checks), old(results), old(tags), name, list, old(failingChecks), failingChecks,
                      old(numFailingApplicationChecks), numFailingApplicationChecks);
      }
      return None;
    }

    /** The gauges follow a change between passing and failing. */
    method Report(checker: Checker, previous: Result, result: Result)
      modifies `failingChecks, `numFailingApplicationChecks
      ensures Moved(old(failingChecks), failingChecks, old(numFailingApplicationChecks), numFailingApplicationChecks,
                    tags, checker, Change(previous, result))
    {
      if result.failed != previous.failed {
        UpdateMetrics(checker, !result.failed, false);
      }
    }

    /** A check reports; only a change between passing and failing moves the gauges. */
    method RunCheck(name: Name, failed: bool, now: nat)
      requires Valid() && name in checks
      modifies `results, `failingChecks, `numFailingApplicationChecks
      ensures Valid() && (old(Exact()) ==> Exact())
      ensures results == old(results)[name := Reported(old(results[name]), failed, now)]
      ensures failed ==> results[name] == Result(true, old(results[name]).contiguousFailures + 1,
                if old(results[name]).contiguousFailures > 0 then old(results[name]).firstFailure else Some(now))
      ensures !failed ==> results[name] == Result(false, 0, None)
    {
      hide Fits, GaugesExact, FailingIn, Moved, Change, ResultOk, Reported, NoRepeats;
      KnownResult(checks, results, tags, name);
      var result := Judge(results[name], failed, now);
      FitsReport(checks, results, tags, name, result);
      Report(checks[name], results[name], result);
      results := results[name := result];
      if old(Exact()) {
        RunExact(checks, old(results), tags, name, result, old(failingChecks), failingChecks,
                 old(numFailingApplicationChecks), numFailingApplicationChecks);
      }
    }

    /** The result of a report, given the one before. */
    static method Judge(previous: Result, failed: bool, now: nat) returns (result: Result)
      requires ResultOk(previous)
      ensures result == Reported(previous, failed, now) && ResultOk(result)
      ensures result == if !failed then Result(false, 0, None)
                        else Result(true, previous.contiguousFailures + 1,
                                    if previous.contiguousFailures > 0 then previous.firstFailure else Some(now))
    {
      result := Result(failed, 0, None);
      if failed {
        var first := if previous.contiguousFailures > 0 then previous.firstFailure else Some(now);
        result := Result(true, previous.contiguousFailures + 1, first);
      }
    }

    /** The checks of the given tags and of the application tag; no tag stands for all checks. */
    method Results(list: seq<Tag>) returns (found: map<Name, Result>, healthy: bool)
      requires Valid()
      ensures found.Keys == Covered(tags, list)
      ensures forall n :: n in found <==>
                && n in checks
                && (list == [] || ALL in list || checks[n].isApplication ||
                    exists t :: t in list && t in checks[n].tags)
      ensures healthy <==> forall n :: n in found ==> !results[n].failed
      ensures forall n :: n in found ==> n in results && found[n] == results[n]
      ensures healthy <==> FailingOf(results, Covered(tags, list)) == {}
      ensures Exact() ==> forall t :: t in tags && list == [t] ==> (healthy <==> Gauge(failingChecks, t) == 0)
      ensures Exact() && list == [] ==> (healthy <==> Gauge(failingChecks, ALL) == 0)
    {
      var tagSet := (if list == [] then {ALL} else set t | t in list) + {APPLICATION};
      var names := Gather(tagSet);
      found, healthy := Collect(names);
      CoveredMeans(checks, results, tags, list);
      NoneFailing(results, names);
      hide Fits, GaugesExact, FailingOf, FailingIn, NamesOf;
      forall n
        ensures n in found <==>
                && n in checks
                && (list == [] || ALL in list || checks[n].isApplication ||
                    exists t :: t in list && t in checks[n].tags)
      {
        CoveredIff(checks, results, tags, list, n);
      }
    }

    method Gather(tagSet: set<Tag>) returns (names: set<Name>)
      ensures names == NamesOf(tags, tagSet)
    {
      names := {};
      var todo := tagSet;
      while todo != {}
        invariant todo <= tagSet
        invariant names == NamesOf(tags, tagSet - todo)
        decreases todo
      {
        var t := Pick(todo);
        OneMoreTag(tags, tagSet - todo, t);
        assert tagSet - (todo - {t}) == tagSet - todo + {t};
        if t in tags { names := names + tags[t]; }
        todo := todo - {t};
      }
    }

    method Collect(names: set<Name>) returns (found: map<Name, Result>, healthy: bool)
      ensures found == map n | n in names && n in results :: results[n]
      ensures healthy <==> FailingOf(results, names) == {}
    {
      found, healthy := map[], true;
      var todo := names;
      while todo != {}
        invariant todo <= names
        invariant found == map n | n in names - todo && n in results :: results[n]
        invariant healthy <==> forall n :: n in names - todo && n in results ==> !results[n].failed
        decreases todo
      {
        var n := Pick(todo);
        if n in results {
          found := found[n := results[n]];
          healthy := healthy && !results[n].failed;
        }
        todo := todo - {n};
      }
      NoneFailing(results, names);
    }
  }

  /** The reports of one check among those of all. */
  function ReportsOf(runs: seq<(Name, Report)>, name: Name): seq<Report> {
    if runs == [] then []
    else
      ReportsOf(runs[..|runs| - 1], name) + if runs[|runs| - 1].0 == name then [runs[|runs| - 1].1] else []
  }

  lemma OneMoreReport(start: Result, runs: seq<(Name, Report)>, i: nat, n: Name)
    requires i < |runs|
    ensures var before := AfterReports(start, ReportsOf(runs[..i], n));
            AfterReports(start, ReportsOf(runs[..i + 1], n)) ==
            if runs[i].0 == n then Reported(before, runs[i].1.failed, runs[i].1.now) else before
  {
    var earlier := ReportsOf(runs[..i], n);
    assert runs[..i + 1][..i] == runs[..i] && earlier + [] == earlier;
    assert (earlier + [runs[i].1])[..|earlier|] == earlier;
  }

  /** The checks run side by side, reporting in any order: each result is that of the check's own reports. */
  method RunChecks(w: Worker, runs: seq<(Name, Report)>)
    requires w.Valid() && forall i :: 0 <= i < |runs| ==> runs[i].0 in w.checks
    modifies w
    ensures w.Valid() && (old(w.Exact()) ==> w.Exact()) && w.checks == old(w.checks) && w.tags == old(w.tags)
    ensures w.results.Keys == old(w.results.Keys)
    ensures forall n :: n in w.results ==> w.results[n] == AfterReports(old(w.results)[n], ReportsOf(runs, n))
  {
    hide Fits, GaugesExact, Reported, NoRepeats;
    for i := 0 to |runs|
      invariant w.Valid() && (old(w.Exact()) ==> w.Exact()) && w.checks == old(w.checks) && w.tags == old(w.tags)
      invariant w.results.Keys == old(w.results.Keys)
      invariant forall n :: n in w.results ==> w.results[n] == AfterReports(old(w.results)[n], ReportsOf(runs[..i], n))
    {
      var name, report := runs[i].0, runs[i].1;
      KnownResult(w.checks, w.results, w.tags, name);
      w.RunCheck(name, report.failed, report.now);
      forall n | n in w.results ensures w.results[n] == AfterReports(old(w.results)[n], ReportsOf(runs[..i + 1], n)) {
        OneMoreReport(old(w.results)[n], runs, i, n);
      }
    }
    assert runs[..|runs|] == runs;
  }

  /** An application check with a new tag, registered while another application check fails, goes uncounted there. */
  method MiscountedNewTag() returns (w: Worker)
    ensures w.Valid() && w.checks.Keys == {1, 2}
    ensures !GaugesExact(w.failingChecks, w.numFailingApplicationChecks, w.results, w.tags)
  {
    w := new Worker();
    hide FailingIn, WithCheck, GaugesExact, Fits;
    var err := w.RegisterCheck(1, [APPLICATION]);
    OneApplicationCheck(1);
    FailingCount(w.failingChecks, w.numFailingApplicationChecks, w.results, w.tags);
    hide FailingIn, WithCheck, GaugesExact, Fits;
    NotCountable(w.numFailingApplicationChecks, w.tags, [APPLICATION, 5], 5);
    err := w.RegisterCheck(2, [APPLICATION, 5]);
  }

  lemma OneApplicationCheck(name: Name)
    ensures var results, tags := map[name := NOT_YET_RUN], WithCheck(map[], name, [APPLICATION]);
            |FailingIn(results, tags, APPLICATION)| == 1 && forall t :: t in tags ==> t == APPLICATION || t == ALL
  {
    assert FailingIn(map[name := NOT_YET_RUN], WithCheck(map[], name, [APPLICATION]), APPLICATION) == {name};
  }

  lemma NotCountable(failing: int, tags: map<Tag, set<Name>>, list: seq<Tag>, t: Tag)
    requires APPLICATION in list && failing != 0 && t in list && t !in tags
    ensures !Countable(failing, tags, list)
  {
  }

  /** A plain check that names a tag twice counts twice there. */
  method MiscountedTwice() returns (w: Worker)
    ensures w.Valid() && w.checks.Keys == {1}
    ensures !GaugesExact(w.failingChecks, w.numFailingApplicationChecks, w.results, w.tags)
  {
    w := new Worker();
    assert [5, 5][0] == [5, 5][1];
    var err := w.RegisterCheck(1, [5, 5]);
  }

  lemma Distribute(k: int, x: int)
    ensures (k + 1) * x == k * x + x
  {
  }
}
