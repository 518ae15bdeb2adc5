/**
 * Open-file counts and the two descriptor maps, line by line, with any number of open, create and
 * release calls under way at once. A session is one handle from its registration to its close; size is
 * what its open found the file's size to be, and 0 for a create.
 */
module OpenHandles {

  type Path = string

  datatype Session =
    | Registered(path: Path, size: nat)             // before ::open or ::creat
    | Refused(path: Path)                           // ::open or ::creat failed
    | Opened(path: Path, fd: int, size: nat)        // neither map written yet
    | SizeIn(path: Path, fd: int, size: nat)        // open stores the size first
    | PathIn(path: Path, fd: int, size: nat)        // create stores the path first
    | Live(path: Path, fd: int, size: nat)          // the call has returned the descriptor
    | Stuck(path: Path, fd: int, size: nat)         // release gave up: fstat failed
    | Closing(path: Path, fd: int, size: nat)       // release has looked the path up
    | Unregistered(path: Path, fd: int, size: nat)
    | PathOut(fd: int, size: nat)
    | SizeOut(fd: int)                              // before ::close
    | Gone
  {
    /** Counted in the open-file map. */
    predicate Counted() {
      Registered? || Refused? || Opened? || SizeIn? || PathIn? || Live? || Stuck? || Closing?
    }

    /** Owns an open descriptor. */
    predicate Holds() {
      !Registered? && !Refused? && !Gone?
    }

    /** Still knows the size found. */
    predicate Sized() {
      !Refused? && !SizeOut? && !Gone?
    }

    predicate HasPath() {
      PathIn? || Live? || Stuck? || Closing? || Unregistered?
    }

    predicate HasSize() {
      SizeIn? || Live? || Stuck? || Closing? || Unregistered? || PathOut?
    }
  }

  /** descriptors holds every descriptor the process has open, other components' included. */
  datatype State = State(counts: map<Path, int>, paths: map<int, Path>, sizes: map<int, nat>,
                         descriptors: set<int>, sessions: seq<Session>)

  function Register(counts: map<Path, int>, path: Path): map<Path, int> {
    if path in counts then counts[path := counts[path] + 1] else counts[path := 1]
  }

  function Deregister(counts: map<Path, int>, path: Path): map<Path, int> {
    if path !in counts then counts
    else if counts[path] - 1 <= 0 then counts - {path}
    else counts[path := counts[path] - 1]
  }

  /** The branch for a descriptor already mapped stores nothing. */
  function InsertPath(paths: map<int, Path>, fd: int, path: Path): map<int, Path> {
    if fd in paths then paths else paths[fd := path]
  }

  /** Registration is the first line of every session. */
  function Begin(s: State, path: Path, size: nat): State {
    s.(counts := Register(s.counts, path), sessions := s.sessions + [Registered(path, size)])
  }

  predicate SessionStep(s: State, t: State, i: nat) {
    && i < |s.sessions| == |t.sessions|
    && var q := t.sessions[i];
    && var u := s.(sessions := s.sessions[i := q]);
    match s.sessions[i] {
      case Registered(path, size) =>
        || (q == Refused(path) && t == u)
        || (q.Opened? && q.path == path && q.size == size && q.fd !in s.descriptors
            && t == u.(descriptors := s.descriptors + {q.fd}))
      case Refused(path) =>
        q == Gone && t == u.(counts := Deregister(s.counts, path))
      case Opened(path, fd, size) =>
        || (q == SizeIn(path, fd, size) && t == u.(sizes := s.sizes[fd := size]))
        || (q == PathIn(path, fd, size) && t == u.(paths := InsertPath(s.paths, fd, path)))
      case SizeIn(path, fd, size) =>
        q == Live(path, fd, size) && t == u.(paths := InsertPath(s.paths, fd, path))
      case PathIn(path, fd, size) =>
        q == Live(path, fd, size) && t == u.(sizes := s.sizes[fd := size])
      case Live(path, fd, size) =>
        && t == u
        && if fd in s.paths then q == Closing(s.paths[fd], fd, size) || (fd in s.sizes && q == Stuck(path, fd, size))
           else q == SizeOut(fd)
      case Closing(path, fd, size) =>
        q == Unregistered(path, fd, size) && t == u.(counts := Deregister(s.counts, path))
      case Unregistered(path, fd, size) =>
        q == PathOut(fd, size) && t == u.(paths := s.paths - {fd})
      case PathOut(fd, _) =>
        q == SizeOut(fd) && t == u.(sizes := s.sizes - {fd})
      case SizeOut(fd) =>
        q == Gone && t == u.(descriptors := s.descriptors - {fd})
      case Stuck(_, _, _) => false
      case Gone => false
    }
  }

  /** Other components open descriptors and close their own. */
  predicate ForeignStep(s: State, t: State) {
    t == s.(descriptors := t.descriptors) && AllOpen(t.descriptors, s.sessions)
  }

  ghost predicate Step(s: State, t: State) {
    || (exists path, size :: t == Begin(s, path, size))
    || (exists i :: SessionStep(s, t, i))
    || ForeignStep(s, t)
  }

  /** Sessions counted for a path. */
  function Count(sessions: seq<Session>, path: Path): nat {
    if sessions == [] then 0
    else (if sessions[0].Counted() && sessions[0].path == path then 1 else 0) + Count(sessions[1..], path)
  }

  lemma {:induction false} CountUpdate(sessions: seq<Session>, i: nat, q: Session, path: Path)
    requires i < |sessions|
    ensures Count(sessions[i := q], path)
         == Count(sessions, path) - Count([sessions[i]], path) + Count([q], path)
  {
    var changed := sessions[i := q];
    if i == 0 {
      assert changed[1..] == sessions[1..];
    } else {
      CountUpdate(sessions[1..], i - 1, q, path);
      assert changed[1..] == sessions[1..][i - 1 := q];
    }
  }

  lemma {:induction false} CountAppend(sessions: seq<Session>, q: Session, path: Path)
    ensures Count(sessions + [q], path) == Count(sessions, path) + Count([q], path)
  {
    if sessions == [] {
      assert sessions + [q] == [q];
    } else {
      CountAppend(sessions[1..], q, path);
      assert (sessions + [q])[1..] == sessions[1..] + [q];
    }
  }

  lemma {:induction false} CountPositive(sessions: seq<Session>, i: nat)
    requires i < |sessions| && sessions[i].Counted()
    ensures Count(sessions, sessions[i].path) > 0
  {
    if i > 0 {
      CountPositive(sessions[1..], i - 1);
    }
  }

  /** Every stored count is at least one and is the number of sessions counted for its path. */
  ghost predicate CountsAgree(counts: map<Path, int>, sessions: seq<Session>) {
    forall path :: Count(sessions, path) == if path in counts then counts[path] else 0
  }

  predicate Positive(counts: map<Path, int>) {
    forall path <- counts :: counts[path] >= 1
  }

  predicate Distinct(sessions: seq<Session>) {
    forall i, j :: 0 <= i < j < |sessions| && sessions[i].Holds() && sessions[j].Holds() ==>
      sessions[i].fd != sessions[j].fd
  }

  predicate AllOpen(descriptors: set<int>, sessions: seq<Session>) {
    forall j :: 0 <= j < |sessions| && sessions[j].Holds() ==> sessions[j].fd in descriptors
  }

  /** Entry fd belongs to session i. */
  predicate PathOf(sessions: seq<Session>, i: nat, fd: int) {
    i < |sessions| && sessions[i].HasPath() && sessions[i].fd == fd
  }

  predicate SizeOf(sessions: seq<Session>, i: nat, fd: int) {
    i < |sessions| && sessions[i].HasSize() && sessions[i].fd == fd
  }

  ghost predicate PathsAgree(paths: map<int, Path>, sessions: seq<Session>) {
    && (forall fd <- paths :: exists i :: PathOf(sessions, i, fd))
    && (forall j :: 0 <= j < |sessions| && sessions[j].HasPath() ==>
          sessions[j].fd in paths && paths[sessions[j].fd] == sessions[j].path)
  }

  ghost predicate SizesAgree(sizes: map<int, nat>, sessions: seq<Session>) {
    && (forall fd <- sizes :: exists i :: SizeOf(sessions, i, fd))
    && (forall j :: 0 <= j < |sessions| && sessions[j].HasSize() ==>
          sessions[j].fd in sizes && sizes[sessions[j].fd] == sessions[j].size)
  }

  ghost predicate Inv(s: State) {
    && CountsAgree(s.counts, s.sessions) && Positive(s.counts)
    && Distinct(s.sessions)
    && AllOpen(s.descriptors, s.sessions)
    && PathsAgree(s.paths, s.sessions)
    && SizesAgree(s.sizes, s.sessions)
  }

  lemma BeginInv(s: State, path: Path, size: nat)
    requires Inv(s)
    ensures Inv(Begin(s, path, size))
  {
    var t := Begin(s, path, size);
    forall other ensures Count(t.sessions, other) == if other in t.counts then t.counts[other] else 0 {
      CountAppend(s.sessions, Registered(path, size), other);
    }
    forall fd <- t.paths ensures exists i :: PathOf(t.sessions, i, fd) {
      var i :| PathOf(s.sessions, i, fd);
      assert PathOf(t.sessions, i, fd);
    }
    forall fd <- t.sizes ensures exists i :: SizeOf(t.sessions, i, fd) {
      var i :| SizeOf(s.sessions, i, fd);
      assert SizeOf(t.sessions, i, fd);
    }
  }

  lemma StepCounts(s: State, t: State, i: nat)
    requires Inv(s) && SessionStep(s, t, i)
    ensures CountsAgree(t.counts, t.sessions) && Positive(t.counts)
  {
    if s.sessions[i].Counted() {
      CountPositive(s.sessions, i);
    }
    forall path ensures Count(t.sessions, path) == if path in t.counts then t.counts[path] else 0 {
      CountUpdate(s.sessions, i, t.sessions[i], path);
    }
  }

  lemma StepDistinct(s: State, t: State, i: nat)
    requires Inv(s) && SessionStep(s, t, i)
    ensures Distinct(t.sessions) && AllOpen(t.descriptors, t.sessions)
  {
  }

  /** What session i does to the maps concerns its own descriptor only. */
  lemma StepTouchesOwn(s: State, t: State, i: nat, fd: int)
    requires Inv(s) && SessionStep(s, t, i)
    requires !(s.sessions[i].Holds() && s.sessions[i].fd == fd)
    ensures fd in t.paths <==> fd in s.paths
    ensures fd in s.paths ==> t.paths[fd] == s.paths[fd]
    ensures fd in t.sizes <==> fd in s.sizes
    ensures fd in s.sizes ==> t.sizes[fd] == s.sizes[fd]
  {
  }

  /** A new descriptor has no entry left over from an earlier one of the same number. */
  lemma NoStaleEntry(s: State, i: nat)
    requires Inv(s) && i < |s.sessions| && s.sessions[i].Holds()
    ensures s.sessions[i].fd in s.paths <==> s.sessions[i].HasPath()
    ensures s.sessions[i].fd in s.sizes <==> s.sessions[i].HasSize()
  {
  }

  lemma StepPathsOwned(s: State, t: State, i: nat, fd: int)
    requires Inv(s) && SessionStep(s, t, i) && fd in t.paths
    ensures exists j :: PathOf(t.sessions, j, fd)
  {
    if s.sessions[i].Holds() && s.sessions[i].fd == fd {
      NoStaleEntry(s, i);
      assert PathOf(t.sessions, i, fd);
    } else {
      StepTouchesOwn(s, t, i, fd);
      var j: nat :| PathOf(s.sessions, j, fd);
      assert PathOf(t.sessions, j, fd);
    }
  }

  lemma StepPaths(s: State, t: State, i: nat)
    requires Inv(s) && SessionStep(s, t, i)
    ensures PathsAgree(t.paths, t.sessions)
  {
    forall fd | fd in t.paths
      ensures exists j :: PathOf(t.sessions, j, fd)
    {
      StepPathsOwned(s, t, i, fd);
    }
    forall j | 0 <= j < |t.sessions| && t.sessions[j].HasPath()
      ensures t.sessions[j].fd in t.paths && t.paths[t.sessions[j].fd] == t.sessions[j].path
    {
      if j == i {
        NoStaleEntry(s, i);
      } else {
        StepTouchesOwn(s, t, i, s.sessions[j].fd);
      }
    }
  }

  lemma StepSizesOwned(s: State, t: State, i: nat, fd: int)
    requires Inv(s) && SessionStep(s, t, i) && fd in t.sizes
    ensures exists j :: SizeOf(t.sessions, j, fd)
  {
    if s.sessions[i].Holds() && s.sessions[i].fd == fd {
      NoStaleEntry(s, i);
      assert SizeOf(t.sessions, i, fd);
    } else {
      StepTouchesOwn(s, t, i, fd);
      var j: nat :| SizeOf(s.sessions, j, fd);
      assert SizeOf(t.sessions, j, fd);
    }
  }

  lemma StepSizes(s: State, t: State, i: nat)
    requires Inv(s) && SessionStep(s, t, i)
    ensures SizesAgree(t.sizes, t.sessions)
  {
    forall fd | fd in t.sizes
      ensures exists j :: SizeOf(t.sessions, j, fd)
    {
      StepSizesOwned(s, t, i, fd);
    }
    forall j | 0 <= j < |t.sessions| && t.sessions[j].HasSize()
      ensures t.sessions[j].fd in t.sizes && t.sizes[t.sessions[j].fd] == t.sessions[j].size
    {
      if j != i {
        StepTouchesOwn(s, t, i, s.sessions[j].fd);
      }
    }
  }

  lemma StepInv(s: State, t: State, i: nat)
    requires Inv(s) && SessionStep(s, t, i)
    ensures Inv(t)
  {
    StepCounts(s, t, i);
    StepDistinct(s, t, i);
    StepPaths(s, t, i);
    StepSizes(s, t, i);
  }

  lemma AnyStepInv(s: State, t: State)
    requires Inv(s) && Step(s, t)
    ensures Inv(t)
  {
    if path, size: nat :| t == Begin(s, path, size) {
      BeginInv(s, path, size);
    } else if i: nat :| SessionStep(s, t, i) {
      StepInv(s, t, i);
    }
  }

  predicate Initial(s: State) {
    s.counts == map[] && s.paths == map[] && s.sizes == map[] && s.sessions == []
  }

  ghost predicate StepAt(run: seq<State>, k: nat)
    requires k + 1 < |run|
  {
    Step(run[k], run[k + 1])
  }

  ghost predicate Run(run: seq<State>) {
    run != [] && Initial(run[0]) && forall k: nat :: k + 1 < |run| ==> StepAt(run, k)
  }

  lemma {:induction false} RunInv(run: seq<State>, n: nat)
    requires Run(run) && n < |run|
    ensures Inv(run[n])
  {
    if n > 0 {
      RunInv(run, n - 1);
      assert StepAt(run, n - 1);
      AnyStepInv(run[n - 1], run[n]);
    }
  }

  /**
   * Whatever calls are interleaved, a handle's descriptor has exactly the entries its own call has
   * stored: a fresh descriptor has none, and a live one has its own path and the size its own open found.
   */
  lemma HandleEntries(run: seq<State>, n: nat, i: nat)
    requires Run(run) && n < |run| && i < |run[n].sessions| && run[n].sessions[i].Holds()
    ensures var s := run[n]; var p := s.sessions[i];
      && (p.HasPath() <==> p.fd in s.paths)
      && (p.HasPath() ==> s.paths[p.fd] == p.path)
      && (p.HasSize() <==> p.fd in s.sizes)
      && (p.HasSize() ==> s.sizes[p.fd] == p.size)
  {
    RunInv(run, n);
    NoStaleEntry(run[n], i);
  }

  lemma OwnSizeKept(s: State, t: State, i: nat)
    requires SessionStep(s, t, i) && t.sessions[i].Sized()
    ensures s.sessions[i].Sized() && t.sessions[i].size == s.sessions[i].size
  {
  }

  lemma OthersSame(s: State, t: State, i: nat)
    requires SessionStep(s, t, i)
    ensures forall j :: 0 <= j < |s.sessions| && j != i ==> t.sessions[j] == s.sessions[j]
  {
  }

  lemma SizeKept(s: State, t: State, i: nat)
    requires Step(s, t) && i < |s.sessions| && i < |t.sessions| && t.sessions[i].Sized()
    ensures s.sessions[i].Sized() && t.sessions[i].size == s.sessions[i].size
  {
    if path, size: nat :| t == Begin(s, path, size) {
      assert t.sessions[i] == s.sessions[i];
    } else if j: nat :| SessionStep(s, t, j) {
      OthersSame(s, t, j);
      if j == i {
        OwnSizeKept(s, t, i);
      }
    }
  }

  lemma SessionsGrow(s: State, t: State)
    requires Step(s, t)
    ensures |s.sessions| <= |t.sessions|
  {
  }

  /** Whatever happens in between, the size stored for a handle is the one found when it was opened. */
  lemma {:induction false} StoredSizeIsFound(run: seq<State>, k: nat, n: nat, i: nat)
    requires Run(run) && k <= n < |run| && i < |run[k].sessions|
    ensures i < |run[n].sessions|
    ensures run[n].sessions[i].Sized() ==>
      run[k].sessions[i].Sized() && run[n].sessions[i].size == run[k].sessions[i].size
    ensures run[n].sessions[i].HasSize() ==>
      var fd := run[n].sessions[i].fd; fd in run[n].sizes && run[n].sizes[fd] == run[k].sessions[i].size
    decreases n
  {
    if k < n {
      StoredSizeIsFound(run, k, n - 1, i);
      assert StepAt(run, n - 1);
      SessionsGrow(run[n - 1], run[n]);
      if run[n].sessions[i].Sized() {
        SizeKept(run[n - 1], run[n], i);
      }
    }
    RunInv(run, n);
  }

  lemma {:induction false} CountedExists(sessions: seq<Session>, path: Path) returns (i: nat)
    requires Count(sessions, path) > 0
    ensures i < |sessions| && sessions[i].Counted() && sessions[i].path == path
  {
    if sessions[0].Counted() && sessions[0].path == path {
      i := 0;
    } else {
      i := CountedExists(sessions[1..], path);
      i := i + 1;
    }
  }

  /** A path is seen as open exactly while some call on it is registered. */
  lemma SeenOpenIff(run: seq<State>, n: nat, path: Path)
    requires Run(run) && n < |run|
    ensures path in run[n].counts <==> exists p <- run[n].sessions :: p.Counted() && p.path == path
  {
    RunInv(run, n);
    var s := run[n];
    if path in s.counts {
      var i := CountedExists(s.sessions, path);
      assert s.sessions[i] in s.sessions;
    }
    if i: nat :| i < |s.sessions| && s.sessions[i].Counted() && s.sessions[i].path == path {
      CountPositive(s.sessions, i);
    }
  }

  lemma StuckStays(s: State, t: State, i: nat)
    requires Step(s, t) && i < |s.sessions| && s.sessions[i].Stuck?
    ensures i < |t.sessions| && t.sessions[i] == s.sessions[i]
  {
    if j: nat :| SessionStep(s, t, j) {
      OthersSame(s, t, j);
    }
  }

  /** A release that gave up leaves its path counted as open for good. */
  lemma {:induction false} StuckKeepsOpen(run: seq<State>, k: nat, n: nat, i: nat)
    requires Run(run) && k <= n < |run|
    requires i < |run[k].sessions| && run[k].sessions[i].Stuck?
    ensures i < |run[n].sessions| && run[n].sessions[i] == run[k].sessions[i]
    ensures run[k].sessions[i].path in run[n].counts
    decreases n
  {
    if k < n {
      StuckKeepsOpen(run, k, n - 1, i);
      assert StepAt(run, n - 1);
      StuckStays(run[n - 1], run[n], i);
    }
    RunInv(run, n);
    CountPositive(run[n].sessions, i);
  }

  /** No open, create or release call is under way. */
  predicate Quiet(sessions: seq<Session>) {
    forall p <- sessions :: p.Live? || p.Stuck? || p.Gone?
  }

  function Descriptors(sessions: seq<Session>, path: Path): set<int>
    requires Quiet(sessions)
  {
    if sessions == [] then {}
    else (if !sessions[0].Gone? && sessions[0].path == path then {sessions[0].fd} else {})
         + Descriptors(sessions[1..], path)
  }

  lemma {:induction false} DescriptorOwner(sessions: seq<Session>, path: Path, fd: int) returns (i: nat)
    requires Quiet(sessions) && fd in Descriptors(sessions, path)
    ensures i < |sessions| && !sessions[i].Gone? && sessions[i].path == path && sessions[i].fd == fd
  {
    if !sessions[0].Gone? && sessions[0].path == path && sessions[0].fd == fd {
      i := 0;
    } else {
      i := DescriptorOwner(sessions[1..], path, fd);
      i := i + 1;
    }
  }

  lemma {:induction false} OwnerListed(sessions: seq<Session>, i: nat)
    requires Quiet(sessions) && i < |sessions| && !sessions[i].Gone?
    ensures sessions[i].fd in Descriptors(sessions, sessions[i].path)
  {
    if i > 0 {
      OwnerListed(sessions[1..], i - 1);
    }
  }

  lemma FirstIsNew(sessions: seq<Session>, path: Path)
    requires Quiet(sessions) && Distinct(sessions) && sessions != [] && !sessions[0].Gone?
    ensures sessions[0].fd !in Descriptors(sessions[1..], path)
  {
    if sessions[0].fd in Descriptors(sessions[1..], path) {
      var i := DescriptorOwner(sessions[1..], path, sessions[0].fd);
    }
  }

  lemma {:induction false} CountIsDescriptors(sessions: seq<Session>, path: Path)
    requires Quiet(sessions) && Distinct(sessions)
    ensures Count(sessions, path) == |Descriptors(sessions, path)|
  {
    if sessions != [] {
      CountIsDescriptors(sessions[1..], path);
      if !sessions[0].Gone? {
        FirstIsNew(sessions, path);
      }
    }
  }

  lemma MappedIffListed(s: State, path: Path, fd: int)
    requires Inv(s) && Quiet(s.sessions)
    ensures fd in s.paths && s.paths[fd] == path <==> fd in Descriptors(s.sessions, path)
  {
    if fd in Descriptors(s.sessions, path) {
      var i := DescriptorOwner(s.sessions, path, fd);
    } else if fd in s.paths && s.paths[fd] == path {
      var i: nat :| PathOf(s.sessions, i, fd);
      OwnerListed(s.sessions, i);
    }
  }

  /** Between whole calls, the count of a path is the number of descriptors mapped to it. */
  lemma QuietCounts(run: seq<State>, n: nat, path: Path)
    requires Run(run) && n < |run| && Quiet(run[n].sessions)
    ensures (if path in run[n].counts then run[n].counts[path] else 0)
         == |set fd | fd in run[n].paths && run[n].paths[fd] == path|
  {
    var s := run[n];
    RunInv(run, n);
    CountIsDescriptors(s.sessions, path);
    var mapped := set fd | fd in s.paths && s.paths[fd] == path;
    forall fd
      ensures fd in mapped <==> fd in Descriptors(s.sessions, path)
    {
      MappedIffListed(s, path, fd);
    }
    assert mapped == Descriptors(s.sessions, path);
  }

  lemma EntriesHaveOwners(s: State)
    requires Inv(s)
    ensures forall fd <- s.paths :: exists p <- s.sessions :: p.Holds() && p.fd == fd
    ensures forall fd <- s.sizes :: exists p <- s.sessions :: p.Holds() && p.fd == fd
  {
  }

  /** When every handle has been closed nothing is left behind. */
  lemma NothingLeftBehind(run: seq<State>, n: nat)
    requires Run(run) && n < |run| && forall p <- run[n].sessions :: p.Gone?
    ensures run[n].counts == map[] && run[n].paths == map[] && run[n].sizes == map[]
  {
    var s := run[n];
    RunInv(run, n);
    forall path ensures path !in s.counts {
      SeenOpenIff(run, n, path);
    }
    EntriesHaveOwners(s);
    assert forall fd :: fd !in s.paths && fd !in s.sizes;
  }
}
