/** One sample of the collector: memory by category with unknown values passed on, and what is left
    for the system, for memory and for disk. */
module Sampler {
  import opened Common
  import opened Sums
  import opened Accounting
  import opened CgroupRoots

  datatype Status = Running | Stopped | Unknown

  datatype Row = Row(cid: string, id: string, category: Category, status: Status)

  datatype Engine = Rootful | Rootless

  /** The answer of one Docker endpoint; None when it cannot be read. */
  datatype Answer = Answer(engine: Engine, rows: Option<seq<Row>>)

  /** A configured service; None when its cgroup does not exist. */
  datatype Service = Service(id: string, category: Category, path: Option<Path>)

  /** Everything that is read for one sample.  `counters` holds the working memory of the cgroups
      that can be read. */
  datatype Input = Input(answers: seq<Answer>, scopes: map<string, Path>, services: seq<Service>,
                         counters: map<Path, nat>, hostMemory: nat,
                         disk: Option<map<Category, Option<int>>>, hostDisk: nat)

  datatype Error =
    | EngineUnavailable | ContainerCgroupUnavailable | ServiceCgroupUnavailable | OverlappingCgroup
    | CounterUnavailable | MemoryExceedsHost | DiskExceedsHost

  /** Values of the five categories and of the system; None where they are unknown. */
  datatype Shares = Shares(categories: map<Category, Option<int>>, system: Option<int>)

  datatype Sample = Sample(memory: Shares, disk: Shares, errors: set<Error>)

  type Resources = map<Key, Option<int>>

  function Affected(e: Engine): set<Category> {
    if e.Rootful? then {Databases} else {Hosting, Builds}
  }

  // ---------------------------------------------------------------- what a sample should say

  function RowsOf(answers: seq<Answer>): seq<Row> {
    if answers == [] then []
    else RowsOf(answers[..|answers| - 1]) + answers[|answers| - 1].rows.GetOr([])
  }

  function RowGroups(rows: seq<Row>, scopes: map<string, Path>): seq<Group> {
    if rows == [] then []
    else
      var r := rows[|rows| - 1];
      RowGroups(rows[..|rows| - 1], scopes)
        + if r.status.Running? && r.cid in scopes then [Group((r.category, r.id), scopes[r.cid])] else []
  }

  function ServiceGroups(services: seq<Service>): seq<Group> {
    if services == [] then []
    else
      var s := services[|services| - 1];
      ServiceGroups(services[..|services| - 1])
        + if s.path.Some? then [Group((s.category, s.id), s.path.value)] else []
  }

  /** The cgroups of everything that runs. */
  function Groups(x: Input): seq<Group> {
    RowGroups(RowsOf(x.answers), x.scopes) + ServiceGroups(x.services)
  }

  predicate RowTrouble(r: Row, scopes: map<string, Path>) {
    r.status.Unknown? || (r.status.Running? && r.cid !in scopes)
  }

  /** An endpoint of this engine does not answer. */
  predicate Unanswered(answers: seq<Answer>, e: Engine) {
    exists a :: a in answers && a.rows.None? && a.engine == e
  }

  /** The engine on which the containers of a category run does not answer: the rootful one for databases,
      the rootless one for hosting and builds. */
  predicate EngineLost(answers: seq<Answer>, c: Category) {
    match c
    case Databases => Unanswered(answers, Rootful)
    case Hosting => Unanswered(answers, Rootless)
    case Builds => Unanswered(answers, Rootless)
    case Platform => false
    case Backups => false
  }

  /** Something of the category is not known: its engine, a container, a service, or a cgroup that
      was rejected or cannot be read. */
  ghost predicate Trouble(x: Input, c: Category) {
    || EngineLost(x.answers, c)
    || (exists r :: r in RowsOf(x.answers) && r.category == c && RowTrouble(r, x.scopes))
    || (exists s :: s in x.services && s.category == c && s.path.None?)
    || (exists g :: g in multiset(Groups(x)) - multiset(Chosen(Groups(x), Groups(x))) && g.key.0 == c)
    || (exists g :: g in Chosen(Groups(x), Groups(x)) && g.key.0 == c && g.path !in x.counters)
  }

  /** Every container, service and cgroup of the category is known, accepted and can be read. */
  ghost predicate Sound(x: Input, c: Category) {
    && (forall r :: r in RowsOf(x.answers) && r.category == c ==>
          (r.status.Running? && r.cid in x.scopes) || r.status.Stopped?)
    && (forall v :: v in x.services && v.category == c ==> v.path.Some?)
    && forall g :: g in Groups(x) && g.key.0 == c ==>
         g !in multiset(Groups(x)) - multiset(Chosen(Groups(x), Groups(x))) && g.path in x.counters
  }

  lemma TroubleIff(x: Input, c: Category)
    ensures Trouble(x, c) <==> EngineLost(x.answers, c) || !Sound(x, c)
  {
    hide EngineLost, Chosen, Groups, RowsOf;
    var groups := Groups(x);
    var chosen := Chosen(groups, groups);
    ChosenMembers(x);
    assert forall g :: g in groups ==> g in multiset(groups);
    forall g | g in groups && g !in multiset(groups) - multiset(chosen)
      ensures g in chosen
    {
      assert multiset(groups)[g] > 0 && (multiset(groups) - multiset(chosen))[g] == 0;
      assert multiset(chosen)[g] > 0;
    }
  }

  lemma ChosenMembers(x: Input)
    ensures forall g :: g in Chosen(Groups(x), Groups(x)) ==> g in Groups(x)
    ensures forall g :: g in multiset(Groups(x)) - multiset(Chosen(Groups(x), Groups(x))) ==> g in Groups(x)
  {
    hide Groups, Chosen;
    ChosenFacts(Groups(x), Groups(x));
  }

  predicate EngineDown(answers: seq<Answer>) {
    exists a :: a in answers && a.rows.None?
  }

  predicate ScopeLost(rows: seq<Row>, scopes: map<string, Path>) {
    exists r :: r in rows && r.status.Running? && r.cid !in scopes
  }

  predicate ServiceDown(services: seq<Service>) {
    exists v :: v in services && v.path.None?
  }

  predicate CounterLost(groups: seq<Group>, counters: map<Path, nat>) {
    exists g :: g in groups && g.path !in counters
  }

  /** What each error says that is met while reading. */
  ghost predicate Raised(x: Input, e: Error) {
    var groups := Groups(x);
    match e
    case EngineUnavailable => EngineDown(x.answers)
    case ContainerCgroupUnavailable => ScopeLost(RowsOf(x.answers), x.scopes)
    case ServiceCgroupUnavailable => ServiceDown(x.services)
    case OverlappingCgroup => Chosen(groups, groups) != groups
    case CounterUnavailable => CounterLost(Chosen(groups, groups), x.counters)
    case MemoryExceedsHost => false
    case DiskExceedsHost => false
  }

  function Reading(counters: map<Path, nat>, p: Path): nat {
    if p in counters then counters[p] else 0
  }

  /** The measurements of the groups of one category. */
  function MemoryOf(groups: seq<Group>, counters: map<Path, nat>, c: Category): nat {
    if groups == [] then 0
    else
      var g := groups[|groups| - 1];
      MemoryOf(groups[..|groups| - 1], counters, c) + if g.key.0 == c then Reading(counters, g.path) else 0
  }

  function Known(v: Option<int>): int {
    v.GetOr(0)
  }

  function Get(m: map<Category, Option<int>>, c: Category): Option<int> {
    if c in m then m[c] else None
  }

  function KnownSum(m: map<Category, Option<int>>): int {
    Known(Get(m, Databases)) + Known(Get(m, Hosting)) + Known(Get(m, Builds)) + Known(Get(m, Platform))
      + Known(Get(m, Backups))
  }

  /** The residual is known exactly when every category is and together they fit the host; then all
      six add up to the usage of the host. */
  ghost predicate Balanced(s: Shares, total: int) {
    && s.categories.Keys == ALL
    && (s.system.Some? <==> (forall c :: c in ALL ==> s.categories[c].Some?) && KnownSum(s.categories) <= total)
    && (s.system.Some? ==>
         && s.system.value >= 0
         && KnownSum(s.categories) + s.system.value == total)
  }

  // ---------------------------------------------------------------- the sample

  /** Resources seen so far: a category with an unknown resource has failed. */
  ghost predicate Sane(resources: Resources, failed: set<Category>) {
    forall k :: k in resources && resources[k].None? ==> k.0 in failed
  }

  ghost function CategorySum(resources: Resources, c: Category): int {
    Sum(map k | k in resources && k.0 == c && resources[k].Some? :: resources[k].value)
  }

  ghost predicate AllZero(resources: Resources) {
    forall k :: k in resources && resources[k].Some? ==> resources[k] == Some(0)
  }

  ghost predicate Keyed(groups: seq<Group>, resources: Resources) {
    forall g :: g in groups ==> g.key in resources
  }

  method ReadEngines(answers: seq<Answer>) returns (rows: seq<Row>, failed: set<Category>, errors: set<Error>)
    ensures rows == RowsOf(answers)
    ensures forall c :: c in failed <==> EngineLost(answers, c)
    ensures errors == if EngineDown(answers) then {EngineUnavailable} else {}
  {
    rows, failed, errors := [], {}, {};
    for n := 0 to |answers|
      invariant rows == RowsOf(answers[..n])
      invariant forall c :: c in failed <==> EngineLost(answers[..n], c)
      invariant errors == if EngineDown(answers[..n]) then {EngineUnavailable} else {}
    {
      assert answers[..n + 1][..n] == answers[..n];
      assert forall a :: a in answers[..n + 1] <==> a in answers[..n] || a == answers[n];
      match answers[n].rows {
        case Some(found) => rows := rows + found;
        case None =>
          errors := errors + {EngineUnavailable};
          failed := failed + Affected(answers[n].engine);
      }
    }
    assert answers[..|answers|] == answers;
  }

  method PlaceRows(rows: seq<Row>, scopes: map<string, Path>, failed: set<Category>)
    returns (groups: seq<Group>, resources: Resources, failed': set<Category>, errors: set<Error>)
    ensures groups == RowGroups(rows, scopes) && Keyed(groups, resources)
    ensures AllZero(resources) && Sane(resources, failed')
    ensures forall c :: c in failed' <==> c in failed || exists r :: r in rows && r.category == c && RowTrouble(r, scopes)
    ensures errors == if ScopeLost(rows, scopes) then {ContainerCgroupUnavailable} else {}
  {
    groups, resources, failed', errors := [], map[], failed, {};
    for n := 0 to |rows|
      invariant groups == RowGroups(rows[..n], scopes) && Keyed(groups, resources)
      invariant AllZero(resources) && Sane(resources, failed')
      invariant forall c :: c in failed' <==>
        c in failed || exists r :: r in rows[..n] && r.category == c && RowTrouble(r, scopes)
      invariant errors == if ScopeLost(rows[..n], scopes) then {ContainerCgroupUnavailable} else {}
    {
      assert rows[..n + 1][..n] == rows[..n];
      assert forall r :: r in rows[..n + 1] <==> r in rows[..n] || r == rows[n];
      var r := rows[n];
      var key := (r.category, r.id);
      if key !in resources {
        resources := resources[key := Some(0)];
      }
      if r.status.Unknown? {
        resources := resources[key := None];
        failed' := failed' + {r.category};
      }
      if r.status.Running? {
        if r.cid in scopes {
          groups := groups + [Group(key, scopes[r.cid])];
        } else {
          resources := resources[key := None];
          failed' := failed' + {r.category};
          errors := errors + {ContainerCgroupUnavailable};
        }
      }
    }
    assert rows[..|rows|] == rows;
  }

  method PlaceServices(services: seq<Service>, groups: seq<Group>, resources: Resources, failed: set<Category>)
    returns (groups': seq<Group>, resources': Resources, failed': set<Category>, errors: set<Error>)
    requires Keyed(groups, resources) && AllZero(resources) && Sane(resources, failed)
    ensures groups' == groups + ServiceGroups(services) && Keyed(groups', resources')
    ensures AllZero(resources') && Sane(resources', failed')
    ensures forall c :: c in failed' <==> c in failed || exists s :: s in services && s.category == c && s.path.None?
    ensures errors == if ServiceDown(services) then {ServiceCgroupUnavailable} else {}
  {
    groups', resources', failed', errors := groups, resources, failed, {};
    for n := 0 to |services|
      invariant groups' == groups + ServiceGroups(services[..n]) && Keyed(groups', resources')
      invariant AllZero(resources') && Sane(resources', failed')
      invariant forall c :: c in failed' <==>
        c in failed || exists s :: s in services[..n] && s.category == c && s.path.None?
      invariant errors == if ServiceDown(services[..n]) then {ServiceCgroupUnavailable} else {}
    {
      assert services[..n + 1][..n] == services[..n];
      assert forall s :: s in services[..n + 1] <==> s in services[..n] || s == services[n];
      var s := services[n];
      var key := (s.category, s.id);
      match s.path {
        case Some(path) =>
          resources' := resources'[key := Some(0)];
          groups' := groups' + [Group(key, path)];
        case None =>
          resources' := resources'[key := None];
          failed' := failed' + {s.category};
          errors := errors + {ServiceCgroupUnavailable};
      }
    }
    assert services[..|services|] == services;
  }

  method DropRejected(rejected: seq<Group>, resources: Resources, failed: set<Category>)
    returns (resources': Resources, failed': set<Category>)
    requires Keyed(rejected, resources) && AllZero(resources) && Sane(resources, failed)
    ensures resources'.Keys == resources.Keys && AllZero(resources') && Sane(resources', failed')
    ensures forall c :: c in failed' <==> c in failed || exists g :: g in rejected && g.key.0 == c
  {
    resources', failed' := resources, failed;
    for n := 0 to |rejected|
      invariant resources'.Keys == resources.Keys && AllZero(resources') && Sane(resources', failed')
      invariant forall c :: c in failed' <==> c in failed || exists g :: g in rejected[..n] && g.key.0 == c
    {
      assert forall g :: g in rejected[..n + 1] <==> g in rejected[..n] || g == rejected[n];
      resources' := resources'[rejected[n].key := None];
      failed' := failed' + {rejected[n].key.0};
    }
    assert rejected[..|rejected|] == rejected;
  }

  lemma SumAtZero(resources: Resources, c: Category)
    requires AllZero(resources)
    ensures CategorySum(resources, c) == 0
  {
    AllZeroSum(map k | k in resources && k.0 == c && resources[k].Some? :: resources[k].value);
  }

  lemma {:induction false} AllZeroSum(m: map<Key, int>)
    requires forall k :: k in m ==> m[k] == 0
    ensures Sum(m) == 0
    decreases |m|
  {
    if k :| k in m {
      SumTake(m, k);
      AllZeroSum(m - {k});
    } else {
      assert m == map[];
    }
  }

  lemma SumGrows(resources: Resources, k: Key, v: int, c: Category)
    requires k in resources && resources[k].Some?
    ensures CategorySum(resources[k := Some(resources[k].value + v)], c)
      == CategorySum(resources, c) + if k.0 == c then v else 0
  {
    hide Sum;
    var more := resources[k := Some(resources[k].value + v)];
    var a := map j | j in resources && j.0 == c && resources[j].Some? :: resources[j].value;
    var b := map j | j in more && j.0 == c && more[j].Some? :: more[j].value;
    if k.0 == c {
      SumPut(a, k, resources[k].value + v);
      assert b == a[k := resources[k].value + v];
    } else {
      assert b == a;
    }
  }

  /** Adds the measurement of every accepted group to its resource. */
  method Measure(groups: seq<Group>, counters: map<Path, nat>, resources: Resources, failed: set<Category>)
    returns (resources': Resources, failed': set<Category>, errors: set<Error>)
    requires Keyed(groups, resources) && AllZero(resources) && Sane(resources, failed)
    ensures Sane(resources', failed')
    ensures forall c :: c in failed' <==> c in failed || exists g :: g in groups && g.key.0 == c && g.path !in counters
    ensures forall c :: c !in failed' ==> CategorySum(resources', c) == MemoryOf(groups, counters, c)
    ensures errors == if CounterLost(groups, counters) then {CounterUnavailable} else {}
  {
    hide CategorySum;
    resources', failed', errors := resources, failed, {};
    forall c ensures CategorySum(resources, c) == 0 {
      SumAtZero(resources, c);
    }
    for n := 0 to |groups|
      invariant resources'.Keys == resources.Keys && Sane(resources', failed')
      invariant forall c :: c in failed' <==>
        c in failed || exists g :: g in groups[..n] && g.key.0 == c && g.path !in counters
      invariant forall c :: c !in failed' ==> CategorySum(resources', c) == MemoryOf(groups[..n], counters, c)
      invariant errors == if CounterLost(groups[..n], counters) then {CounterUnavailable} else {}
    {
      assert groups[..n + 1][..n] == groups[..n];
      assert forall g :: g in groups[..n + 1] <==> g in groups[..n] || g == groups[n];
      var g := groups[n];
      ghost var before := resources';
      if g.path in counters {
        if resources'[g.key].Some? {
          resources' := resources'[g.key := Some(resources'[g.key].value + counters[g.path])];
          forall c ensures CategorySum(resources', c) == CategorySum(before, c) + if g.key.0 == c then counters[g.path] else 0 {
            SumGrows(before, g.key, counters[g.path], c);
          }
        }
      } else {
        resources' := resources'[g.key := None];
        failed' := failed' + {g.key.0};
        errors := errors + {CounterUnavailable};
        forall c | c != g.key.0 ensures CategorySum(resources', c) == CategorySum(before, c) {
          SumElsewhere(before, g.key, c);
        }
      }
    }
    assert groups[..|groups|] == groups;
  }

  lemma SumElsewhere(resources: Resources, k: Key, c: Category)
    requires k.0 != c
    ensures CategorySum(resources[k := None], c) == CategorySum(resources, c)
  {
    hide Sum;
    var lost := resources[k := None];
    assert (map j | j in lost && j.0 == c && lost[j].Some? :: lost[j].value)
      == (map j | j in resources && j.0 == c && resources[j].Some? :: resources[j].value);
  }

  /** The sum of the resources of a category, or unknown. */
  method Summed(resources: Resources, failed: set<Category>, c: Category) returns (v: Option<int>)
    requires Sane(resources, failed)
    ensures v == if c in failed then None else Some(CategorySum(resources, c))
  {
    if c in failed {
      return None;
    }
    var mine := map k | k in resources && k.0 == c && resources[k].Some? :: resources[k].value;
    var rest := mine;
    var sum := 0;
    while rest != map[]
      invariant sum + Sum(rest) == Sum(mine)
      decreases |rest|
    {
      var k :| k in rest;
      SumTake(rest, k);
      sum := sum + rest[k];
      rest := rest - {k};
    }
    v := Some(sum);
  }

  /** What the categories leave of the host. */
  method Residual(categories: map<Category, Option<int>>, total: int) returns (s: Shares, exceeded: bool)
    requires categories.Keys == ALL
    ensures s.categories == categories && Balanced(s, total)
    ensures exceeded <==> KnownSum(categories) > total
  {
    var known := KnownSum(categories);
    exceeded := known > total;
    if (exists c :: c in ALL && categories[c].None?) || known > total {
      s := Shares(categories, None);
    } else {
      s := Shares(categories, Some(total - known));
    }
  }

  /** The resources of a sample with the memory measured for them. */
  method Attribute(x: Input) returns (resources: Resources, failed: set<Category>, errors: set<Error>)
    ensures Sane(resources, failed)
    ensures forall c :: c in failed <==> Trouble(x, c)
    ensures forall c :: c !in failed ==> CategorySum(resources, c) == MemoryOf(Chosen(Groups(x), Groups(x)), x.counters, c)
    ensures forall e :: e in errors <==> Raised(x, e)
  {
    hide CategorySum, Chosen, RowGroups, RowsOf, ServiceGroups, MemoryOf, Incomparable, Covers, Sane, AllZero,
      EngineDown, ScopeLost, ServiceDown, CounterLost, Trouble, Raised, RowTrouble;
    var rows, fromEngines, engineErrors := ReadEngines(x.answers);
    var groups, fromRows, rowErrors;
    groups, resources, fromRows, rowErrors := PlaceRows(rows, x.scopes, fromEngines);
    var fromServices, serviceErrors;
    groups, resources, fromServices, serviceErrors := PlaceServices(x.services, groups, resources, fromRows);
    assert groups == Groups(x);
    var accepted, rejected := NonOverlapping(groups);
    MembersOfBoth(groups, accepted, rejected);
    var overlapErrors := if rejected != [] then {OverlappingCgroup} else {};
    var fromRejected;
    resources, fromRejected := DropRejected(rejected, resources, fromServices);
    var counterErrors;
    resources, failed, counterErrors := Measure(accepted, x.counters, resources, fromRejected);
    errors := engineErrors + rowErrors + serviceErrors + overlapErrors + counterErrors;
    RaisedTogether(x, engineErrors, rowErrors, serviceErrors, overlapErrors, counterErrors);
    TroubleTogether(x, fromEngines, fromRows, fromServices, fromRejected, failed, rejected);
  }

  lemma RaisedTogether(x: Input, a: set<Error>, b: set<Error>, c: set<Error>, d: set<Error>, e: set<Error>)
    requires a == if EngineDown(x.answers) then {EngineUnavailable} else {}
    requires b == if ScopeLost(RowsOf(x.answers), x.scopes) then {ContainerCgroupUnavailable} else {}
    requires c == if ServiceDown(x.services) then {ServiceCgroupUnavailable} else {}
    requires d == if Chosen(Groups(x), Groups(x)) != Groups(x) then {OverlappingCgroup} else {}
    requires e == if CounterLost(Chosen(Groups(x), Groups(x)), x.counters) then {CounterUnavailable} else {}
    ensures forall f :: f in a + b + c + d + e <==> Raised(x, f)
  {
    hide EngineDown, ScopeLost, ServiceDown, CounterLost, Chosen, Groups, RowsOf;
  }

  lemma TroubleTogether(x: Input, engines: set<Category>, rows: set<Category>, services: set<Category>, dropped: set<Category>,
                        failed: set<Category>, rejected: seq<Group>)
    requires forall c :: c in engines <==> EngineLost(x.answers, c)
    requires forall c :: c in rows <==>
      c in engines || exists r :: r in RowsOf(x.answers) && r.category == c && RowTrouble(r, x.scopes)
    requires forall c :: c in services <==> c in rows || exists s :: s in x.services && s.category == c && s.path.None?
    requires forall c :: c in dropped <==> c in services || exists g :: g in rejected && g.key.0 == c
    requires forall g :: g in rejected <==> g in multiset(Groups(x)) - multiset(Chosen(Groups(x), Groups(x)))
    requires forall c :: c in failed <==>
      c in dropped || exists g :: g in Chosen(Groups(x), Groups(x)) && g.key.0 == c && g.path !in x.counters
    ensures forall c :: c in failed <==> Trouble(x, c)
  {
    hide Chosen, Groups, RowsOf, RowTrouble, EngineLost;
  }

  method CategoryRows(resources: Resources, failed: set<Category>) returns (memory: map<Category, Option<int>>)
    requires Sane(resources, failed)
    ensures memory.Keys == ALL
    ensures forall c :: c in ALL ==> memory[c] == if c in failed then None else Some(CategorySum(resources, c))
  {
    hide CategorySum, Sane;
    memory := map[];
    var order := [Databases, Hosting, Builds, Platform, Backups];
    for n := 0 to |order|
      invariant memory.Keys == set c | c in order[..n]
      invariant forall c :: c in memory ==> memory[c] == if c in failed then None else Some(CategorySum(resources, c))
    {
      assert order[..n + 1] == order[..n] + [order[n]];
      var v := Summed(resources, failed, order[n]);
      memory := memory[order[n] := v];
    }
    assert order[..|order|] == order;
    assert forall c :: c in ALL ==> c in order;
  }

  /** One sample: every category is the exact sum of what its accepted cgroups use, or unknown if
      anything of it is; memory and disk are balanced against the host. */
  method TakeSample(x: Input) returns (s: Sample)
    ensures Balanced(s.memory, x.hostMemory)
    ensures forall c :: c in ALL ==>
      s.memory.categories[c] == if Trouble(x, c) then None else Some(MemoryOf(Chosen(Groups(x), Groups(x)), x.counters, c))
    ensures Unanswered(x.answers, Rootful) ==> s.memory.categories[Databases].None?
    ensures Unanswered(x.answers, Rootless) ==>
      s.memory.categories[Hosting].None? && s.memory.categories[Builds].None?
    ensures forall c :: c in ALL && Sound(x, c) ==>
      (s.memory.categories[c].None? <==>
         || (c == Databases && Unanswered(x.answers, Rootful))
         || ((c == Hosting || c == Builds) && Unanswered(x.answers, Rootless)))
    ensures x.disk.Some? ==>
      Balanced(s.disk, x.hostDisk) && forall c :: c in ALL ==> s.disk.categories[c] == Get(x.disk.value, c)
    ensures x.disk.None? ==> s.disk == Shares(map c | c in ALL :: None, None)
    ensures forall e :: e in s.errors <==>
      || Raised(x, e)
      || (e == MemoryExceedsHost && KnownSum(s.memory.categories) > x.hostMemory)
      || (e == DiskExceedsHost && x.disk.Some? && KnownSum(s.disk.categories) > x.hostDisk)
  {
    hide CategorySum, Chosen, Groups, MemoryOf, Trouble, Sane, Raised, Sound, Unanswered;
    forall c
      ensures Trouble(x, c) <==> EngineLost(x.answers, c) || !Sound(x, c)
    {
      TroubleIff(x, c);
    }
    var resources, failed, errors := Attribute(x);
    var memory := CategoryRows(resources, failed);
    var memoryShares, memoryExceeded := Residual(memory, x.hostMemory);
    var diskShares := Shares(map c | c in ALL :: None, None);
    if memoryExceeded {
      errors := errors + {MemoryExceedsHost};
    }
    if x.disk.Some? {
      var categories := map c | c in ALL :: Get(x.disk.value, c);
      var diskExceeded: bool;
      diskShares, diskExceeded := Residual(categories, x.hostDisk);
      if diskExceeded {
        errors := errors + {DiskExceedsHost};
      }
    }
    s := Sample(memoryShares, diskShares, errors);
  }

  lemma MembersOfBoth(groups: seq<Group>, accepted: seq<Group>, rejected: seq<Group>)
    requires multiset(accepted) + multiset(rejected) == multiset(groups)
    ensures forall g :: g in accepted || g in rejected ==> g in groups
    ensures multiset(rejected) == multiset(groups) - multiset(accepted)
    ensures forall g :: g in rejected <==> g in multiset(groups) - multiset(accepted)
  {
    forall g | g in accepted || g in rejected ensures g in groups {
      assert multiset(groups)[g] > 0;
    }
    assert forall g :: g in rejected <==> g in multiset(rejected);
  }

  // ---------------------------------------------------------------- what follows

  lemma {:induction false} MemoryIsMeasured(own: map<Path, nat>, groups: seq<Group>, counters: map<Path, nat>)
    requires forall g :: g in groups ==> g.path in counters && counters[g.path] <= Subtree(own, g.path)
    ensures MemoryOf(groups, counters, Databases) + MemoryOf(groups, counters, Hosting) + MemoryOf(groups, counters, Builds)
      + MemoryOf(groups, counters, Platform) + MemoryOf(groups, counters, Backups) <= Measured(own, groups)
  {
    hide Subtree;
    if groups != [] {
      var n := |groups| - 1;
      assert forall g :: g in groups[..n] ==> g in groups;
      MemoryIsMeasured(own, groups[..n], counters);
      assert groups[n] in groups;
      AllIsAll(groups[n].key.0);
    }
  }

  /** If every counter shows at most what its cgroup and those below it really use, the categories of
      a sample together never exceed what the common ancestor of the cgroups uses. */
  lemma CategoriesFitTheirAncestor(own: map<Path, nat>, x: Input, ancestor: Path)
    requires forall g :: g in Groups(x) ==> ancestor <= g.path
    requires forall g :: g in Chosen(Groups(x), Groups(x)) ==> g.path in x.counters && x.counters[g.path] <= Subtree(own, g.path)
    ensures
      var groups := Chosen(Groups(x), Groups(x));
      MemoryOf(groups, x.counters, Databases) + MemoryOf(groups, x.counters, Hosting) + MemoryOf(groups, x.counters, Builds)
      + MemoryOf(groups, x.counters, Platform) + MemoryOf(groups, x.counters, Backups) <= Subtree(own, ancestor)
  {
    hide Subtree, Measured, Groups;
    MemoryIsMeasured(own, Chosen(Groups(x), Groups(x)), x.counters);
    AcceptedNeverExceedAncestor(own, Groups(x), ancestor);
  }

  // ---------------------------------------------------------------- what is measured

  lemma {:induction false} RowsAreAnswered(answers: seq<Answer>, r: Row)
    ensures r in RowsOf(answers) <==> exists a :: a in answers && a.rows.Some? && r in a.rows.value
  {
    if answers != [] {
      var n := |answers| - 1;
      RowsAreAnswered(answers[..n], r);
      assert answers == answers[..n] + [answers[n]];
      assert forall a :: a in answers <==> a in answers[..n] || a == answers[n];
    }
  }

  lemma {:induction false} RowGroupsAre(rows: seq<Row>, scopes: map<string, Path>, g: Group)
    ensures g in RowGroups(rows, scopes) <==>
      exists r :: r in rows && r.status.Running? && r.cid in scopes && g == Group((r.category, r.id), scopes[r.cid])
  {
    if rows != [] {
      var n := |rows| - 1;
      RowGroupsAre(rows[..n], scopes, g);
      assert forall r :: r in rows <==> r in rows[..n] || r == rows[n];
    }
  }

  lemma {:induction false} ServiceGroupsAre(services: seq<Service>, g: Group)
    ensures g in ServiceGroups(services) <==>
      exists v :: v in services && v.path.Some? && g == Group((v.category, v.id), v.path.value)
  {
    if services != [] {
      var n := |services| - 1;
      ServiceGroupsAre(services[..n], g);
      assert forall v :: v in services <==> v in services[..n] || v == services[n];
    }
  }

  /** What is measured is the cgroup of every running container that an engine listed, and of every service. */
  lemma GroupsAre(x: Input, g: Group)
    ensures g in Groups(x) <==>
      || (exists r :: r in RowsOf(x.answers) && r.status.Running? && r.cid in x.scopes
            && g == Group((r.category, r.id), x.scopes[r.cid]))
      || (exists v :: v in x.services && v.path.Some? && g == Group((v.category, v.id), v.path.value))
  {
    RowGroupsAre(RowsOf(x.answers), x.scopes, g);
    ServiceGroupsAre(x.services, g);
    hide RowGroups, ServiceGroups, RowsOf;
  }

  /** One site that uses 100 MiB, while the engine of the databases does not answer. */
  function OneSite(): Input {
    Input([Answer(Rootful, None), Answer(Rootless, Some([Row("c", "site", Hosting, Running)]))],
          map["c" := ["user", "site"]], [], map[["user", "site"] := 104857600], 1073741824, None, 0)
  }

  const SITE_ROW := Row("c", "site", Hosting, Running)
  const SITE_GROUP := Group((Hosting, "site"), ["user", "site"])

  lemma OneSiteRows()
    ensures RowsOf(OneSite().answers) == [SITE_ROW]
  {
    var answers := OneSite().answers;
    assert answers[..1] == [answers[0]] && answers[..1][..0] == [];
    assert RowsOf([answers[0]]) == [];
  }

  lemma OneRowGroup(x: Input)
    requires "c" in x.scopes && x.scopes["c"] == ["user", "site"]
    ensures RowGroups([SITE_ROW], x.scopes) == [SITE_GROUP]
  {
    assert [SITE_ROW][..0] == [];
  }

  lemma OneChosen(g: Group)
    ensures Chosen([g], [g]) == [g]
  {
    assert [g][..0] == [];
    assert !HasBelow([g], g.path) && !Taken([], g.path);
  }

  lemma OneMemory(counters: map<Path, nat>, g: Group, c: Category)
    ensures MemoryOf([g], counters, c) == if g.key.0 == c then Reading(counters, g.path) else 0
  {
    assert [g][..0] == [];
  }

  lemma OneSiteGroups()
    ensures RowsOf(OneSite().answers) == [SITE_ROW]
    ensures Groups(OneSite()) == [SITE_GROUP]
    ensures Chosen(Groups(OneSite()), Groups(OneSite())) == Groups(OneSite())
    ensures MemoryOf(Groups(OneSite()), OneSite().counters, Hosting) == 104857600
    ensures MemoryOf(Groups(OneSite()), OneSite().counters, Builds) == 0
  {
    hide RowsOf, RowGroups, Chosen, MemoryOf;
    var x := OneSite();
    OneSiteRows();
    OneRowGroup(x);
    assert ServiceGroups(x.services) == [];
    assert Groups(x) == [SITE_GROUP];
    OneChosen(SITE_GROUP);
    OneMemory(x.counters, SITE_GROUP, Hosting);
    OneMemory(x.counters, SITE_GROUP, Builds);
  }

  lemma OneSiteTrouble()
    ensures Trouble(OneSite(), Databases) && !Trouble(OneSite(), Hosting) && !Trouble(OneSite(), Builds)
  {
    hide Groups, RowsOf, Chosen, Trouble;
    var x := OneSite();
    OneSiteGroups();
    assert x.answers[0] in x.answers;
    assert Unanswered(x.answers, Rootful) && !Unanswered(x.answers, Rootless);
    assert multiset(Groups(x)) - multiset(Chosen(Groups(x), Groups(x))) == multiset{};
    assert Sound(x, Hosting) && Sound(x, Builds);
    TroubleIff(x, Databases);
    TroubleIff(x, Hosting);
    TroubleIff(x, Builds);
  }

  /** Its memory is known, that of the builds is zero, and that of the databases is unknown. */
  method SampleOneSite() returns (s: Sample)
    ensures s.memory.categories.Keys == ALL
    ensures s.memory.categories[Hosting] == Some(104857600) && s.memory.categories[Builds] == Some(0)
    ensures s.memory.categories[Databases] == None && s.memory.system == None
  {
    hide Groups, RowsOf, Chosen, MemoryOf, Trouble, Raised, Sound, Unanswered;
    OneSiteGroups();
    OneSiteTrouble();
    s := TakeSample(OneSite());
    assert s.memory.categories[Hosting] == Some(104857600);
  }
}
