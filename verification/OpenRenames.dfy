/**
 * Open files under renames. The open-file counts go by the path a file was opened under; renaming
 * (rename.cpp) and removing files do not touch them, while a pass asks for a file by the path it has
 * now (tier.cpp:114-115).
 */
module OpenRenames {
  import opened OpenHandles

  /** at is the path the file behind each descriptor has now; a file that lost its name has none. */
  datatype World = World(handles: State, at: map<int, Path>)

  /** A line of open, create or release, a rename of files, or the removal of one. */
  datatype Event = Line | Rename(moves: map<Path, Path>) | Remove(path: Path)

  predicate SameName(a: map<int, Path>, b: map<int, Path>, fd: int) {
    (fd in a <==> fd in b) && (fd in a ==> a[fd] == b[fd])
  }

  /** A descriptor names the file it was opened on. */
  predicate NamesFollow(w: World, v: World) {
    forall j :: 0 <= j < |v.handles.sessions| && v.handles.sessions[j].Holds() ==>
      var q := v.handles.sessions[j];
      if j < |w.handles.sessions| && w.handles.sessions[j].Holds() then SameName(w.at, v.at, q.fd)
      else q.Opened? && q.fd in v.at && v.at[q.fd] == q.path
  }

  /** Moved files take their new names; a file whose name is taken over has none left. */
  function Renamed(at: map<int, Path>, moves: map<Path, Path>): map<int, Path> {
    map fd | fd in at && (at[fd] in moves || at[fd] !in moves.Values) ::
      if at[fd] in moves then moves[at[fd]] else at[fd]
  }

  ghost predicate Happens(w: World, v: World, e: Event) {
    match e
    case Line => Step(w.handles, v.handles) && NamesFollow(w, v)
    case Rename(moves) => v == World(w.handles, Renamed(w.at, moves))
    case Remove(path) => v == World(w.handles, map fd | fd in w.at && w.at[fd] != path :: w.at[fd])
  }

  ghost predicate HappensAt(worlds: seq<World>, events: seq<Event>, k: nat)
    requires |worlds| == |events| + 1 && k < |events|
  {
    Happens(worlds[k], worlds[k + 1], events[k])
  }

  ghost predicate History(worlds: seq<World>, events: seq<Event>) {
    && |worlds| == |events| + 1 && Initial(worlds[0].handles)
    && forall k: nat :: k < |events| ==> HappensAt(worlds, events, k)
  }

  lemma {:induction false} HistoryInv(worlds: seq<World>, events: seq<Event>, n: nat)
    requires History(worlds, events) && n < |worlds|
    ensures Inv(worlds[n].handles)
  {
    if n > 0 {
      HistoryInv(worlds, events, n - 1);
      assert HappensAt(worlds, events, n - 1);
      if events[n - 1].Line? {
        AnyStepInv(worlds[n - 1].handles, worlds[n].handles);
      }
    }
  }

  /** The file behind a handle would be found open by a pass that meets it. */
  predicate SeenOpen(w: World, i: nat)
    requires i < |w.handles.sessions| && w.handles.sessions[i].Holds()
  {
    var fd := w.handles.sessions[i].fd;
    fd in w.at && w.at[fd] in w.handles.counts
  }

  /**
   * The file behind a live or stuck handle is seen as open exactly when it still has a name, and that
   * is the path the handle was opened under or one that some other handle is counted for.
   */
  lemma SeenOpenNowIff(worlds: seq<World>, events: seq<Event>, n: nat, i: nat)
    requires History(worlds, events) && n < |worlds| && i < |worlds[n].handles.sessions|
    requires worlds[n].handles.sessions[i].Live? || worlds[n].handles.sessions[i].Stuck?
    ensures var w := worlds[n];
      var q := w.handles.sessions[i];
      SeenOpen(w, i) <==> q.fd in w.at && (w.at[q.fd] == q.path || CountedElsewhere(w.handles.sessions, i, w.at[q.fd]))
  {
    HistoryInv(worlds, events, n);
    var s, fd := worlds[n].handles, worlds[n].handles.sessions[i].fd;
    if fd in worlds[n].at {
      CountedIff(s, i, worlds[n].at[fd]);
    }
  }

  predicate CountedElsewhere(sessions: seq<Session>, i: nat, path: Path) {
    exists j :: 0 <= j < |sessions| && j != i && sessions[j].Counted() && sessions[j].path == path
  }

  lemma CountedIff(s: State, i: nat, path: Path)
    requires Inv(s) && i < |s.sessions| && s.sessions[i].Counted()
    ensures path in s.counts <==> s.sessions[i].path == path || CountedElsewhere(s.sessions, i, path)
  {
    if path in s.counts {
      var j := CountedExists(s.sessions, path);
    }
    if j: nat :| j < |s.sessions| && s.sessions[j].Counted() && s.sessions[j].path == path {
      CountPositive(s.sessions, j);
    }
  }

  // -------------------------------------------------- with and without renames

  predicate Touches(e: Event, path: Path) {
    || (e.Rename? && (path in e.moves || path in e.moves.Values))
    || (e.Remove? && e.path == path)
  }

  predicate OpenAt(w: World, i: nat) {
    i < |w.handles.sessions| && w.handles.sessions[i].Holds() && w.handles.sessions[i].Counted()
  }

  /** The file behind an open handle has the path the handle was opened under. */
  predicate NamedAsOpened(w: World, i: nat) {
    OpenAt(w, i) && var q := w.handles.sessions[i]; q.fd in w.at && w.at[q.fd] == q.path
  }

  lemma OwnStepKeeps(s: State, t: State, i: nat)
    requires Inv(s) && SessionStep(s, t, i) && s.sessions[i].Holds() && t.sessions[i].Holds()
    requires s.sessions[i].Counted() && t.sessions[i].Counted()
    ensures t.sessions[i].fd == s.sessions[i].fd && t.sessions[i].path == s.sessions[i].path
  {
    NoStaleEntry(s, i);
  }

  lemma SessionKept(s: State, t: State, i: nat)
    requires Inv(s) && Step(s, t) && i < |s.sessions| && i < |t.sessions|
    requires s.sessions[i].Holds() && t.sessions[i].Holds() && s.sessions[i].Counted() && t.sessions[i].Counted()
    ensures t.sessions[i].fd == s.sessions[i].fd && t.sessions[i].path == s.sessions[i].path
  {
    if j: nat :| SessionStep(s, t, j) {
      if j == i {
        OwnStepKeeps(s, t, i);
      }
    }
  }

  /** A file opened and not renamed or removed since keeps its path, and is seen as open throughout. */
  lemma {:induction false} UntouchedStaysSeen(worlds: seq<World>, events: seq<Event>, k: nat, n: nat, i: nat)
    requires History(worlds, events) && k <= n < |worlds| && NamedAsOpened(worlds[k], i)
    requires forall m :: k <= m <= n ==> OpenAt(worlds[m], i)
    requires forall m :: k <= m < n ==> !Touches(events[m], worlds[k].handles.sessions[i].path)
    ensures NamedAsOpened(worlds[n], i) && SeenOpen(worlds[n], i)
    ensures worlds[n].handles.sessions[i].path == worlds[k].handles.sessions[i].path
    decreases n
  {
    assert OpenAt(worlds[n], i);
    HistoryInv(worlds, events, n);
    CountPositive(worlds[n].handles.sessions, i);
    if k < n {
      var m := n - 1;
      UntouchedStaysSeen(worlds, events, k, m, i);
      HistoryInv(worlds, events, m);
      assert HappensAt(worlds, events, m) && OpenAt(worlds[m], i);
      if events[m].Line? {
        SessionKept(worlds[m].handles, worlds[n].handles, i);
      }
    }
  }

  /** Renaming an open file to a path nobody is counted for hides it from a pass, and it stays open. */
  lemma RenameHides(w: World, v: World, i: nat, to: Path)
    requires Inv(w.handles) && NamedAsOpened(w, i) && to !in w.handles.counts
    requires Happens(w, v, Rename(map[w.handles.sessions[i].path := to]))
    ensures SeenOpen(w, i) && OpenAt(v, i) && !SeenOpen(v, i)
    ensures v.at[v.handles.sessions[i].fd] == to && v.handles.sessions[i].path in v.handles.counts
  {
    CountPositive(w.handles.sessions, i);
  }
}
