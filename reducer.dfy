/**
 * The structure reducer (src/simulation/reducer.js): the pure transition
 * function of the builder's state, holding draft and confirmed cubes, the
 * selected material, an undo log and the collapse warning.
 */
module Reducer {
  import opened Basics
  import opened Materials
  import opened StructuralEngine

  /**
   * The actions the reducer understands, with their payloads already read.
   * `Unknown` stands for an action whose `type` is none of the nine names.
   */
  datatype Action =
    | PlaceDraft(x: real, y: real, z: real, material: Material)
    | DeleteDraft(id: int)
    | SetMaterial(material: Material)
    | ConfirmDraft
    | Undo
    | DeleteConfirmed(id: int)
    | Collapse
    | CancelCollapse
    | UpdateCountdown(countdown: int)
    | Unknown(kind: string)

  /**
   * An undo-log entry: the logged action itself, or for a confirmation the
   * action extended with the draft list it confirmed.
   */
  datatype Entry =
    | Logged(action: Action)
    | LoggedConfirm(previousDraftCubes: seq<Cube>)

  datatype CollapseState = CollapseState(warningActive: bool, unstableIds: seq<int>, countdown: int)

  datatype State = State(
    draftCubes: seq<Cube>,
    confirmedCubes: seq<Cube>,
    currentMaterial: Material,
    history: seq<Entry>,
    collapseState: CollapseState,
    nextId: int)

  /** The collapse sub-state with no warning, no unstable ids and a countdown of 3. */
  const QUIET := CollapseState(false, [], 3)

  const INITIAL_STATE := State([], [], DEFAULT_MATERIAL, [], QUIET, 1)

  /** `{ ...cube, status }` */
  function SetStatus(c: Cube, st: Status): (r: Cube)
    ensures r.id == c.id && r.status == st
    ensures r == c.(status := st)
  {
    match c
    case Placed(id, x, y, z, m, _) => Placed(id, x, y, z, m, st)
    case Bare(id, _) => Bare(id, st)
  }

  /** `cubes.map(cube => ({ ...cube, status }))` */
  function WithStatus(cs: seq<Cube>, st: Status): (r: seq<Cube>)
    ensures |r| == |cs| && forall i :: 0 <= i < |cs| ==> r[i] == SetStatus(cs[i], st)
  {
    seq(|cs|, i requires 0 <= i < |cs| => SetStatus(cs[i], st))
  }

  /** `list.slice(0, -1)`: the list without its last element, empty when it is empty. */
  function DropLast<T>(s: seq<T>): (r: seq<T>)
    ensures s == [] ==> r == []
    ensures s != [] ==> s == r + [s[|s| - 1]]
  {
    if s == [] then [] else s[..|s| - 1]
  }

  /**
   * `simulationReducer(state, action)`. Only an undo shortens the log, and
   * then by its last entry or not at all; every other action appends at
   * most one entry. Only a material choice changes the current material,
   * and only a placement or an undo moves the id counter.
   */
  function Reduce(s: State, a: Action): (r: State)
    ensures a.Undo? ==> r == s || (s.history != [] && r.history == DropLast(s.history))
    ensures !a.Undo? ==> s.history <= r.history && |r.history| <= |s.history| + 1
    ensures !a.SetMaterial? ==> r.currentMaterial == s.currentMaterial
    ensures !a.Undo? ==> r.nextId == s.nextId + (if a.PlaceDraft? then 1 else 0)
  {
    match a
    case PlaceDraft(x, y, z, m) =>
      s.(draftCubes := s.draftCubes + [Placed(s.nextId, x, y, z, m, Draft)],
         history := s.history + [Logged(a)],
         nextId := s.nextId + 1)
    case DeleteDraft(id) =>
      s.(draftCubes := Drop(s.draftCubes, {id}), history := s.history + [Logged(a)])
    case SetMaterial(m) =>
      s.(currentMaterial := m)
    case ConfirmDraft =>
      var confirmed := s.confirmedCubes + WithStatus(s.draftCubes, Confirmed);
      s.(confirmedCubes := confirmed,
         draftCubes := [],
         history := s.history + [LoggedConfirm(s.draftCubes)],
         collapseState := Warning(confirmed))
    case Undo =>
      UndoLast(s)
    case DeleteConfirmed(id) =>
      s.(confirmedCubes := Drop(s.confirmedCubes, {id}), history := s.history + [Logged(a)])
    case Collapse =>
      s.(confirmedCubes := Drop(s.confirmedCubes, Elements(s.collapseState.unstableIds)),
         collapseState := QUIET,
         history := s.history + [Logged(a)])
    case CancelCollapse =>
      s.(collapseState := QUIET)
    case UpdateCountdown(n) =>
      s.(collapseState := s.collapseState.(countdown := n))
    case Unknown(_) =>
      s
  }

  /**
   * The `UNDO` case: inverts the last logged placement, draft deletion or
   * confirmation and pops it; any other last entry leaves the state,
   * history included, as it is. Only a popped placement moves the id
   * counter back, by one.
   */
  function UndoLast(s: State): (r: State)
    ensures r.history == s.history ==> r == s
    ensures r.history != s.history ==> s.history != [] && r.history == DropLast(s.history)
    ensures r.currentMaterial == s.currentMaterial
    ensures r.nextId != s.nextId ==>
      && s.history != [] && s.history[|s.history| - 1].Logged? && s.history[|s.history| - 1].action.PlaceDraft?
      && r.nextId == s.nextId - 1
  {
    if s.history == [] then s
    else
      var last := s.history[|s.history| - 1];
      var rest := s.history[..|s.history| - 1];
      match last
      case Logged(PlaceDraft(_, _, _, _)) =>
        s.(draftCubes := DropLast(s.draftCubes), history := rest, nextId := s.nextId - 1)
      case Logged(DeleteDraft(id)) =>
        s.(draftCubes := s.draftCubes + [Bare(id, Unset)], history := rest)
      case Logged(ConfirmDraft) =>
        Unconfirm(s, [], rest)
      case LoggedConfirm(previous) =>
        Unconfirm(s, previous, rest)
      case _ =>
        s
  }

  /** Reverts a confirmation of `previous`; a log entry without that list reverts nothing. */
  function Unconfirm(s: State, previous: seq<Cube>, rest: seq<Entry>): State {
    s.(confirmedCubes := Drop(s.confirmedCubes, IdSet(previous)),
       draftCubes := WithStatus(previous, Draft),
       history := rest,
       collapseState := QUIET)
  }

  /** The state after applying `actions` in order. */
  function Run(s: State, actions: seq<Action>): State
    decreases |actions|
  {
    if actions == [] then s else Run(Reduce(s, actions[0]), actions[1..])
  }

  // ---- Placement ----

  /**
   * A placement appends one draft with the next id at the given position,
   * logs the action and advances the id counter; nothing else changes.
   */
  lemma PlaceAppendsDraft(s: State, x: real, y: real, z: real, m: Material)
    ensures var r := Reduce(s, PlaceDraft(x, y, z, m));
      && r.draftCubes == s.draftCubes + [Placed(s.nextId, x, y, z, m, Draft)]
      && r.history == s.history + [Logged(PlaceDraft(x, y, z, m))]
      && r.nextId == s.nextId + 1
      && r.confirmedCubes == s.confirmedCubes
      && r.collapseState == s.collapseState
      && r.currentMaterial == s.currentMaterial
  {
  }

  /** Undoing a placement right after it restores the state exactly. */
  lemma PlaceThenUndo(s: State, x: real, y: real, z: real, m: Material)
    ensures Reduce(Reduce(s, PlaceDraft(x, y, z, m)), Undo) == s
  {
    var r := Reduce(s, PlaceDraft(x, y, z, m));
    assert r.history[..|r.history| - 1] == s.history;
    assert DropLast(r.draftCubes) == s.draftCubes;
  }

  /** Undoing a logged placement removes the last draft, whichever cube that is. */
  lemma UndoPlaceDropsLastDraft(s: State)
    requires s.history != [] && s.history[|s.history| - 1].Logged?
    requires s.history[|s.history| - 1].action.PlaceDraft?
    ensures Reduce(s, Undo)
      == s.(draftCubes := DropLast(s.draftCubes), history := s.history[..|s.history| - 1], nextId := s.nextId - 1)
  {
  }

  /**
   * Undoing a placement after another draft was appended drops that draft
   * instead: place cubes 1 and 2, delete draft 1, undo twice. The second undo
   * removes the `{id: 1}` record restored by the first, cube 2 stays, and
   * `nextId` is back to 2, so the next placement reuses id 2.
   */
  lemma UndoPlaceKeepsPlacedCube(m: Material)
    ensures var r := Run(INITIAL_STATE, [PlaceDraft(0.0, 0.5, 0.0, m), PlaceDraft(1.0, 0.5, 0.0, m),
                                         DeleteDraft(1), Undo, Undo, PlaceDraft(2.0, 0.5, 0.0, m)]);
      && r.draftCubes == [Placed(2, 1.0, 0.5, 0.0, m, Draft), Placed(2, 2.0, 0.5, 0.0, m, Draft)]
  {
    var a1, a2, a3, a6 := PlaceDraft(0.0, 0.5, 0.0, m), PlaceDraft(1.0, 0.5, 0.0, m), DeleteDraft(1), PlaceDraft(2.0, 0.5, 0.0, m);
    var first, second := [a1, a2, a3], [Undo, Undo, a6];
    RunAppend(INITIAL_STATE, first, second);
    assert first + second == [a1, a2, a3, Undo, Undo, a6];
    PlaceTwiceDeleteFirst(m);
    UndoTwiceThenPlace(Run(INITIAL_STATE, first), m);
  }

  /** Places cubes 1 and 2 and deletes draft 1. */
  lemma PlaceTwiceDeleteFirst(m: Material)
    ensures var t := Run(INITIAL_STATE, [PlaceDraft(0.0, 0.5, 0.0, m), PlaceDraft(1.0, 0.5, 0.0, m), DeleteDraft(1)]);
      && t.draftCubes == [Placed(2, 1.0, 0.5, 0.0, m, Draft)]
      && t.history == [Logged(PlaceDraft(0.0, 0.5, 0.0, m)), Logged(PlaceDraft(1.0, 0.5, 0.0, m)), Logged(DeleteDraft(1))]
      && t.nextId == 3
  {
    var a1, a2, a3 := PlaceDraft(0.0, 0.5, 0.0, m), PlaceDraft(1.0, 0.5, 0.0, m), DeleteDraft(1);
    var p1, p2 := Placed(1, 0.0, 0.5, 0.0, m, Draft), Placed(2, 1.0, 0.5, 0.0, m, Draft);
    var s2 := Reduce(Reduce(INITIAL_STATE, a1), a2);
    assert s2.draftCubes == [p1, p2];
    assert Drop([p1, p2], {1}) == [p2] by {
      assert [p1, p2][1..] == [p2];
      assert Filter([p2], HasIdOutside({1})) == [p2];
    }
    RunAppend(INITIAL_STATE, [a1, a2], [a3]);
    RunAppend(INITIAL_STATE, [a1], [a2]);
    assert [a1, a2] + [a3] == [a1, a2, a3];
  }

  /** From the state above, two undos and a placement leave two drafts with id 2. */
  lemma UndoTwiceThenPlace(t: State, m: Material)
    requires t.draftCubes == [Placed(2, 1.0, 0.5, 0.0, m, Draft)]
    requires t.history == [Logged(PlaceDraft(0.0, 0.5, 0.0, m)), Logged(PlaceDraft(1.0, 0.5, 0.0, m)), Logged(DeleteDraft(1))]
    requires t.nextId == 3
    ensures Run(t, [Undo, Undo, PlaceDraft(2.0, 0.5, 0.0, m)]).draftCubes
      == [Placed(2, 1.0, 0.5, 0.0, m, Draft), Placed(2, 2.0, 0.5, 0.0, m, Draft)]
  {
    var p2, a6 := Placed(2, 1.0, 0.5, 0.0, m, Draft), PlaceDraft(2.0, 0.5, 0.0, m);
    var t1 := Reduce(t, Undo);
    assert t.history[..2] == [Logged(PlaceDraft(0.0, 0.5, 0.0, m)), Logged(PlaceDraft(1.0, 0.5, 0.0, m))];
    assert t1.draftCubes == [p2, Bare(1, Unset)] && t1.nextId == 3;
    var t2 := Reduce(t1, Undo);
    assert t2.draftCubes == [p2] && t2.nextId == 2;
    RunAppend(t, [Undo, Undo], [a6]);
    RunAppend(t, [Undo], [Undo]);
    assert [Undo, Undo] + [a6] == [Undo, Undo, a6];
  }

  /** Running two lists of actions is running their concatenation. */
  lemma {:induction false} RunAppend(s: State, first: seq<Action>, second: seq<Action>)
    ensures Run(s, first + second) == Run(Run(s, first), second)
    decreases |first|
  {
    if first != [] {
      assert (first + second)[1..] == first[1..] + second;
      RunAppend(Reduce(s, first[0]), first[1..], second);
    } else {
      assert first + second == second;
    }
  }

  // ---- Deletion ----

  /**
   * A draft deletion removes every draft with that id, keeps the other
   * drafts in order and is logged even when no draft matched.
   */
  lemma DeleteDraftRemovesId(s: State, id: int)
    ensures var r := Reduce(s, DeleteDraft(id));
      && (forall c :: c in r.draftCubes <==> c in s.draftCubes && c.id != id)
      && r == s.(draftCubes := Filter(s.draftCubes, HasIdOutside({id})),
                 history := s.history + [Logged(DeleteDraft(id))])
  {
  }

  /** Undoing a draft deletion appends the logged payload, a record holding only the id. */
  lemma UndoDeleteDraftAppendsId(s: State)
    requires s.history != [] && s.history[|s.history| - 1].Logged?
    requires s.history[|s.history| - 1].action.DeleteDraft?
    ensures Reduce(s, Undo)
      == s.(draftCubes := s.draftCubes + [Bare(s.history[|s.history| - 1].action.id, Unset)],
            history := s.history[..|s.history| - 1])
  {
  }

  /**
   * A confirmed-cube deletion removes every confirmed cube with that id and
   * is logged, but leaves the collapse state, unstable ids included, as it was.
   */
  lemma DeleteConfirmedRemovesId(s: State, id: int)
    ensures var r := Reduce(s, DeleteConfirmed(id));
      && (forall c :: c in r.confirmedCubes <==> c in s.confirmedCubes && c.id != id)
      && r == s.(confirmedCubes := Filter(s.confirmedCubes, HasIdOutside({id})),
                 history := s.history + [Logged(DeleteConfirmed(id))])
  {
  }

  /**
   * After deleting a confirmed cube that the warning lists as unstable, the
   * warning still lists its id although no confirmed cube carries it.
   */
  lemma DeleteConfirmedLeavesStaleId(s: State, id: int)
    requires id in s.collapseState.unstableIds
    ensures var r := Reduce(s, DeleteConfirmed(id));
      id in r.collapseState.unstableIds && id !in IdSet(r.confirmedCubes)
  {
    var r := Reduce(s, DeleteConfirmed(id));
    assert forall c :: c in r.confirmedCubes ==> c.id != id;
  }

  // ---- Undo that does nothing ----

  /** Undo with an empty log leaves the state as it is. */
  lemma UndoEmptyHistory(s: State)
    requires s.history == []
    ensures Reduce(s, Undo) == s
  {
  }

  /**
   * Undo whose last entry is a confirmed-cube deletion or a collapse leaves
   * the state unchanged and does not pop the log, so every later undo is
   * stuck on the same entry.
   */
  lemma {:induction false} UndoStuck(s: State, k: nat)
    requires s.history != [] && s.history[|s.history| - 1].Logged?
    requires s.history[|s.history| - 1].action.DeleteConfirmed? || s.history[|s.history| - 1].action.Collapse?
    ensures Run(s, seq(k, _ => Undo)) == s
  {
    if k > 0 {
      assert seq(k, _ => Undo)[1..] == seq(k - 1, _ => Undo);
      UndoStuck(s, k - 1);
    }
  }

  // ---- Confirmation ----

  /**
   * Confirmation appends the drafts, marked confirmed and in order, to the
   * confirmed cubes, empties the drafts, logs the old draft list and sets
   * the warning from the stability check of the new confirmed list.
   */
  lemma ConfirmMovesDrafts(s: State)
    ensures var r := Reduce(s, ConfirmDraft);
      && r.confirmedCubes == s.confirmedCubes + WithStatus(s.draftCubes, Confirmed)
      && r.draftCubes == []
      && r.history == s.history + [LoggedConfirm(s.draftCubes)]
      && r.collapseState == Warning(s.confirmedCubes + WithStatus(s.draftCubes, Confirmed))
      && r.nextId == s.nextId
      && r.currentMaterial == s.currentMaterial
  {
  }

  /**
   * The collapse state a confirmation sets for the confirmed list `cs`: it
   * lists exactly the confirmed ids the stability check does not reach, is
   * active exactly when the structure is unstable, and restarts the
   * countdown at 3.
   */
  function Warning(cs: seq<Cube>): (w: CollapseState)
    ensures forall id :: id in w.unstableIds <==> id in IdSet(cs) && id !in SupportedIds(cs)
    ensures w.warningActive <==> !IsStructureStable(cs)
    ensures w.countdown == 3
  {
    var unstableIds := UnstableCubeIds(cs);
    CollapseState(|unstableIds| > 0, unstableIds, 3)
  }

  /**
   * Undo right after a confirmation restores the drafts (marked draft),
   * removes their ids from the confirmed cubes, restores the log and clears
   * the warning.
   */
  lemma ConfirmThenUndo(s: State)
    ensures var r := Reduce(Reduce(s, ConfirmDraft), Undo);
      && r.draftCubes == WithStatus(s.draftCubes, Draft)
      && r.confirmedCubes == Drop(s.confirmedCubes, IdSet(s.draftCubes))
      && r.history == s.history
      && r.collapseState == QUIET
      && r.nextId == s.nextId
      && r.currentMaterial == s.currentMaterial
  {
    var t := Reduce(s, ConfirmDraft);
    ConfirmMovesDrafts(s);
    UndoConfirmEntry(t, s.draftCubes, s.history);
    StatusKeepsIds(s.draftCubes, Confirmed);
    DropCovered(s.confirmedCubes, WithStatus(s.draftCubes, Confirmed), IdSet(s.draftCubes));
  }

  /**
   * Undo whose last entry is a logged confirmation of `previous`, whatever
   * happened since, puts `previous` back as drafts, removes every confirmed
   * cube carrying one of their ids, pops the entry and clears the warning;
   * the id counter and the material stay.
   */
  lemma UndoConfirmEntry(t: State, previous: seq<Cube>, rest: seq<Entry>)
    requires t.history == rest + [LoggedConfirm(previous)]
    ensures var r := Reduce(t, Undo);
      && r.draftCubes == WithStatus(previous, Draft)
      && (forall c :: c in r.confirmedCubes <==> c in t.confirmedCubes && c.id !in IdSet(previous))
      && r.confirmedCubes == Drop(t.confirmedCubes, IdSet(previous))
      && r.history == rest
      && r.collapseState == QUIET
      && r.nextId == t.nextId
      && r.currentMaterial == t.currentMaterial
  {
    assert t.history[..|t.history| - 1] == rest;
  }

  lemma StatusKeepsIds(cs: seq<Cube>, st: Status)
    ensures IdSet(WithStatus(cs, st)) == IdSet(cs)
  {
    var w := WithStatus(cs, st);
    forall id | id in IdSet(cs) ensures id in IdSet(w) {
      var i :| 0 <= i < |cs| && cs[i].id == id;
      assert w[i] in w;
    }
    forall id | id in IdSet(w) ensures id in IdSet(cs) {
      var i :| 0 <= i < |w| && w[i].id == id;
      assert cs[i] in cs;
    }
  }

  /**
   * When the drafts are all marked draft and share no id with a confirmed
   * cube, confirming and undoing gives back the state with a quiet collapse state.
   */
  lemma ConfirmUndoRoundTrip(s: State)
    requires forall c :: c in s.draftCubes ==> c.status == Draft
    requires IdSet(s.draftCubes) !! IdSet(s.confirmedCubes)
    ensures Reduce(Reduce(s, ConfirmDraft), Undo) == s.(collapseState := QUIET)
  {
    ConfirmThenUndo(s);
    var d := s.draftCubes;
    assert WithStatus(d, Draft) == d by {
      forall i | 0 <= i < |d| ensures SetStatus(d[i], Draft) == d[i] {
        assert d[i] in d;
      }
    }
    forall c | c in s.confirmedCubes ensures HasIdOutside(IdSet(d))(c) {
      assert c.id in IdSet(s.confirmedCubes);
    }
    FilterAll(s.confirmedCubes, HasIdOutside(IdSet(d)));
  }

  /**
   * Confirming with no drafts still runs the stability check and replaces
   * the collapse state, so a pending warning is recomputed.
   */
  lemma ConfirmNothingRecomputes(s: State)
    requires s.draftCubes == []
    ensures var r := Reduce(s, ConfirmDraft);
      && r.confirmedCubes == s.confirmedCubes
      && r.collapseState == Warning(s.confirmedCubes)
      && (r.collapseState.warningActive <==> !IsStructureStable(s.confirmedCubes))
      && r.history == s.history + [LoggedConfirm([])]
  {
    ConfirmMovesDrafts(s);
    assert s.confirmedCubes + WithStatus([], Confirmed) == s.confirmedCubes;
  }

  // ---- Collapse ----

  /**
   * A collapse removes exactly the confirmed cubes whose id the warning
   * lists, keeps the rest in order, quiets the warning and is logged.
   */
  lemma CollapseRemovesUnstable(s: State)
    ensures var r := Reduce(s, Collapse);
      && (forall c :: c in r.confirmedCubes <==> c in s.confirmedCubes && c.id !in s.collapseState.unstableIds)
      && r == s.(confirmedCubes := Filter(s.confirmedCubes, HasIdOutside(Elements(s.collapseState.unstableIds))),
                 collapseState := QUIET,
                 history := s.history + [Logged(Collapse)])
  {
  }

  /**
   * A collapse right after a confirmation keeps exactly the cubes the
   * stability check found supported.
   */
  lemma ConfirmThenCollapseKeepsSupported(s: State)
    ensures var confirmed := s.confirmedCubes + WithStatus(s.draftCubes, Confirmed);
      Reduce(Reduce(s, ConfirmDraft), Collapse).confirmedCubes == Validate(confirmed).supported
  {
    var cs := s.confirmedCubes + WithStatus(s.draftCubes, Confirmed);
    var t := Reduce(s, ConfirmDraft);
    ConfirmMovesDrafts(s);
    CollapseDrops(t, cs, UnstableCubeIds(cs));
    DropUnstableKeepsSupported(cs);
  }

  lemma CollapseDrops(t: State, cs: seq<Cube>, ids: seq<int>)
    requires t.confirmedCubes == cs && t.collapseState.unstableIds == ids
    ensures Reduce(t, Collapse).confirmedCubes == Drop(cs, Elements(ids))
  {
  }

  /** Cancelling a collapse quiets the warning and changes nothing else; it is not logged. */
  lemma CancelCollapseQuiets(s: State)
    ensures Reduce(s, CancelCollapse) == s.(collapseState := QUIET)
  {
  }

  // ---- Actions that are not logged ----

  /** Choosing a material changes only the current material and is not logged. */
  lemma SetMaterialOnlySelects(s: State, m: Material)
    ensures Reduce(s, SetMaterial(m)) == s.(currentMaterial := m)
  {
  }

  /** A countdown update changes only the countdown and is not logged. */
  lemma UpdateCountdownOnlyCounts(s: State, n: int)
    ensures Reduce(s, UpdateCountdown(n)) == s.(collapseState := s.collapseState.(countdown := n))
  {
  }

  /** An action of unknown type leaves the state as it is. */
  lemma UnknownActionIgnored(s: State, kind: string)
    ensures Reduce(s, Unknown(kind)) == s
  {
  }

  // ---- The id counter ----

  /** The number of placements in the log. */
  function Placements(h: seq<Entry>): nat {
    if h == [] then 0
    else Placements(h[..|h| - 1]) + (if h[|h| - 1].Logged? && h[|h| - 1].action.PlaceDraft? then 1 else 0)
  }

  /** `nextId` is one more than the number of placements still in the log. */
  ghost predicate CounterTracksLog(s: State) {
    s.nextId == 1 + Placements(s.history)
  }

  /** Every action keeps the id counter in step with the log. */
  lemma ReduceKeepsCounter(s: State, a: Action)
    requires CounterTracksLog(s)
    ensures CounterTracksLog(Reduce(s, a))
  {
    var r := Reduce(s, a);
    if r.history != s.history {
      if |r.history| == |s.history| + 1 {
        assert r.history[..|s.history|] == s.history;
      } else {
        assert s.history != [] && r.history == s.history[..|s.history| - 1];
      }
    }
  }

  /** From the initial state, every run keeps the id counter in step with the log. */
  lemma {:induction false} RunKeepsCounter(s: State, actions: seq<Action>)
    requires CounterTracksLog(s)
    ensures CounterTracksLog(Run(s, actions))
    ensures Run(s, actions).nextId >= 1
    decreases |actions|
  {
    if actions != [] {
      ReduceKeepsCounter(s, actions[0]);
      RunKeepsCounter(Reduce(s, actions[0]), actions[1..]);
    }
  }

  /** In every state reached from the initial one, `nextId` is one more than the placements in the log. */
  lemma ReachableCounter(actions: seq<Action>)
    ensures Run(INITIAL_STATE, actions).nextId == 1 + Placements(Run(INITIAL_STATE, actions).history)
  {
    RunKeepsCounter(INITIAL_STATE, actions);
  }

}
