/**
 Synchronisations of one PIX or TED transfer that interleave: each saves the transfer and then updates its
 ledger row, and any number of them may stand between the two.
 */
module SyncRaces {
  import opened LedgerIdentity
  import opened LedgerMirror
  import opened PaymentStatuses
  import opened Transactions
  import opened Wrappers

  /** A recognised answer of the provider. */
  datatype Report = PixTold(pixStatus: PixStatus) | TedTold(tedStatus: TedStatus)

  predicate Concerns(p: Payment, report: Report) {
    (p.Pix? && report.PixTold?) || (p.Ted? && report.TedTold?)
  }

  function Told(p: Payment, report: Report): Payment {
    match report
    case PixTold(status) => if p.Pix? then p.(pixStatus := status) else p
    case TedTold(status) => if p.Ted? then p.(tedStatus := status) else p
  }

  /** Where a sync stands: it has loaded the transfer and heard the provider, has saved the transfer, or is done. */
  datatype Stage = Heard(loaded: Payment) | RowSaved | Finished

  datatype Sync = Sync(report: Report, stage: Stage)

  /** The world, the syncs, and who was the last to save the transfer and to update the ledger. */
  datatype Race = Race(w: World, syncs: seq<Sync>, saver: Option<nat>, updater: Option<nat>)

  datatype Move = Begin(report: Report) | Continue(sync: nat)

  function Moved(r: Race, id: string, move: Move): Race
    requires id in r.w.payments
  {
    match move
    case Begin(report) => r.(syncs := r.syncs + [Sync(report, Heard(r.w.payments[id]))])
    case Continue(k) => if k < |r.syncs| then Advanced(r, id, k) else r
  }

  /** A sync whose report is the status it loaded writes nothing; any other writes its status twice. */
  function Advanced(r: Race, id: string, k: nat): Race
    requires id in r.w.payments && k < |r.syncs|
  {
    var s, p := r.syncs[k], r.w.payments[id];
    match s.stage
    case Heard(loaded) =>
      if Told(loaded, s.report) == loaded then r.(syncs := r.syncs[k := s.(stage := Finished)])
      else r.(w := Stored(r.w, id, Told(p, s.report)), syncs := r.syncs[k := s.(stage := RowSaved)], saver := Some(k))
    case RowSaved =>
      var status := LedgerStatus(Told(p, s.report));
      r.(w := Called(r.w, UpdateStatus(p.authenticationCode, status)),
         syncs := r.syncs[k := s.(stage := Finished)],
         updater := Some(k))
    case Finished => r
  }

  function After(w: World, id: string, moves: seq<Move>): (r: Race)
    requires id in w.payments
    ensures id in r.w.payments
  {
    if moves == [] then Race(w, [], None, None) else Moved(After(w, id, moves[..|moves| - 1]), id, moves[|moves| - 1])
  }

  /** Syncs of this transfer's kind. */
  ghost predicate Concerned(p: Payment, moves: seq<Move>) {
    forall i :: 0 <= i < |moves| && moves[i].Begin? ==> Concerns(p, moves[i].report)
  }

  /** No sync stands between its two writes. */
  ghost predicate Quiet(r: Race) {
    forall k :: 0 <= k < |r.syncs| ==> !r.syncs[k].stage.RowSaved?
  }

  /** A sync that nothing interrupts is the atomic sync step. */
  lemma LonePixSyncIsTheStep(w: World, id: string, report: string)
    requires id in w.payments && w.payments[id].Pix? && w.payments[id].authenticationCode != ""
    requires w.payments[id].senderAccount != "" && PixReport(report).Some?
    ensures var heard := PixTold(PixReport(report).value);
      var r := Moved(Race(w, [], None, None), id, Begin(heard));
      Moved(Moved(r, id, Continue(0)), id, Continue(0)).w == LedgerMirror.Next(w, SyncPix(id, Some(report)))
  {
  }

  lemma LoneTedSyncIsTheStep(w: World, id: string, report: string)
    requires id in w.payments && w.payments[id].Ted? && w.payments[id].authenticationCode != ""
        && TedReport(report).Some?
    ensures var heard := TedTold(TedReport(report).value);
      var r := Moved(Race(w, [], None, None), id, Begin(heard));
      Moved(Moved(r, id, Continue(0)), id, Continue(0)).w == LedgerMirror.Next(w, SyncTed(id, Some(report)))
  {
  }

  // ----- what every race keeps -----

  /** The transfer as the last of some kind of writer left it. */
  function Left(p: Payment, syncs: seq<Sync>, writer: Option<nat>): Payment {
    if writer.Some? && writer.value < |syncs| then Told(p, syncs[writer.value].report) else p
  }

  ghost predicate SoundTable(w: World) {
    UniqueRows(w.ledger) && forall k :: 0 <= k < |w.ledger| ==> w.ledger[k].id < w.nextId
  }

  /** The ledger has what the last updater wrote, for a transfer that has a row. */
  ghost predicate LedgerHas(w: World, id: string, p: Payment, before: Option<Transaction>) {
    match FindByCode(w.ledger, p.authenticationCode)
    case None => before.None?
    case Some(row) => before.Some? && row.identity == before.value.identity && row.details.status == LedgerStatus(p)
  }

  ghost predicate Kept(w: World, id: string, r: Race)
    requires id in w.payments && id in r.w.payments
  {
    var p := w.payments[id];
    && SoundTable(r.w)
    && r.w.payments[id] == Left(p, r.syncs, r.saver)
    && LedgerHas(r.w, id, Left(p, r.syncs, r.updater), FindByCode(w.ledger, p.authenticationCode))
    && (forall k :: 0 <= k < |r.syncs| ==> Concerns(p, r.syncs[k].report))
    && (r.saver.Some? ==> r.saver.value < |r.syncs| && (r.updater.Some? || r.syncs[r.saver.value].stage.RowSaved?))
    && (r.updater.Some? ==> r.updater.value < |r.syncs| && r.saver.Some?)
    && (forall k :: 0 <= k < |r.syncs| && r.syncs[k].stage.RowSaved? ==> r.saver.Some?)
  }

  lemma BeginKeeps(w: World, id: string, r: Race, report: Report)
    requires id in w.payments && id in r.w.payments && Kept(w, id, r) && Concerns(w.payments[id], report)
    ensures Kept(w, id, Moved(r, id, Begin(report)))
  {
  }

  /** A sync that has nothing to write, or is done. */
  lemma IdleKeeps(w: World, id: string, r: Race, k: nat)
    requires id in w.payments && id in r.w.payments && Kept(w, id, r) && k < |r.syncs|
    requires !r.syncs[k].stage.RowSaved? && (r.syncs[k].stage.Heard? ==>
                                             Told(r.syncs[k].stage.loaded, r.syncs[k].report)
                                                 == r.syncs[k].stage.loaded)
    ensures Kept(w, id, Advanced(r, id, k))
  {
  }

  lemma SaveKeeps(w: World, id: string, r: Race, k: nat)
    requires id in w.payments && id in r.w.payments && Kept(w, id, r) && k < |r.syncs|
    requires r.syncs[k].stage.Heard? && Told(r.syncs[k].stage.loaded, r.syncs[k].report) != r.syncs[k].stage.loaded
    ensures Kept(w, id, Advanced(r, id, k))
  {
    var p, s := w.payments[id], r.syncs[k];
    var r' := Advanced(r, id, k);
    ToldTwice(p, r.syncs, r.saver, s.report);
    assert Left(p, r'.syncs, r.updater) == Left(p, r.syncs, r.updater);
    assert r'.w.ledger == r.w.ledger;
  }

  lemma ToldTwice(p: Payment, syncs: seq<Sync>, writer: Option<nat>, report: Report)
    requires Concerns(p, report) && forall k :: 0 <= k < |syncs| ==> Concerns(p, syncs[k].report)
    ensures Told(Left(p, syncs, writer), report) == Told(p, report)
  {
  }

  lemma UpdateKeeps(w: World, id: string, r: Race, k: nat)
    requires id in w.payments && id in r.w.payments && Kept(w, id, r) && k < |r.syncs| && r.syncs[k].stage.RowSaved?
    ensures Kept(w, id, Advanced(r, id, k))
  {
    var p, q := w.payments[id], Told(r.w.payments[id], r.syncs[k].report);
    CallOnLedger(r.w, UpdateStatus(p.authenticationCode, LedgerStatus(q)), p.authenticationCode);
  }

  lemma {:induction false} RacesKeep(w: World, id: string, moves: seq<Move>)
    requires LedgerMirror.Ok(w) && id in w.payments && Concerned(w.payments[id], moves)
    requires w.payments[id].authenticationCode != ""
    ensures Kept(w, id, After(w, id, moves))
  {
    if moves == [] {
      assert Mirrored(w.ledger, id, w.payments[id]);
    } else {
      var init, last := moves[..|moves| - 1], moves[|moves| - 1];
      var r := After(w, id, init);
      RacesKeep(w, id, init);
      match last
      case Begin(report) => BeginKeeps(w, id, r, report);
      case Continue(k) =>
        if k < |r.syncs| {
          if r.syncs[k].stage.RowSaved? {
            UpdateKeeps(w, id, r, k);
          } else if r.syncs[k].stage.Heard? && Told(r.syncs[k].stage.loaded,
                                                    r.syncs[k].report) != r.syncs[k].stage.loaded {
            SaveKeeps(w, id, r, k);
          } else {
            IdleKeeps(w, id, r, k);
          }
        }
    }
  }

  /**
   When a race leaves the mirror intact: after any interleaving of any number of syncs that have all finished, a
   transfer with a ledger row is mirrored exactly when the last to save it was the last to update its row, or
   the two reported statuses with one ledger status.
   */
  lemma RaceEndsMirroredIff(w: World, id: string, moves: seq<Move>)
    requires LedgerMirror.Ok(w) && id in w.payments && Concerned(w.payments[id], moves)
    requires w.payments[id].authenticationCode != "" && !LacksRow(w, id)
    requires Quiet(After(w, id, moves))
    ensures var r, p := After(w, id, moves), w.payments[id];
      Mirrored(r.w.ledger, id, r.w.payments[id]) <==>
        r.saver == r.updater || LedgerStatus(Left(p, r.syncs, r.saver)) == LedgerStatus(Left(p, r.syncs, r.updater))
  {
    RacesKeep(w, id, moves);
    assert Mirrored(w.ledger, id, w.payments[id]);
  }

  function Begun(first: Report, second: Report): seq<Move> {
    [Begin(first)] + [Begin(second)]
  }

  /** Two syncs, both saved before either updates the ledger, and updated in the other order. */
  function CrossedMoves(first: Report, second: Report): seq<Move> {
    Begun(first, second) + [Continue(0)] + [Continue(1)] + [Continue(1)] + [Continue(0)]
  }

  /** Where the syncs of a race stand, and who wrote last. */
  ghost predicate Stands(r: Race, syncs: seq<Sync>, saver: Option<nat>, updater: Option<nat>) {
    r.syncs == syncs && r.saver == saver && r.updater == updater
  }

  lemma FirstMove(w: World, id: string, move: Move)
    requires id in w.payments
    ensures After(w, id, [move]) == Moved(Race(w, [], None, None), id, move)
  {
    assert [move][..0] == [];
  }

  lemma BothHeard(w: World, id: string, first: Report, second: Report)
    requires id in w.payments
    ensures var p := w.payments[id];
      Stands(After(w, id, Begun(first, second)), [Sync(first, Heard(p)), Sync(second, Heard(p))], None, None)
  {
    var p := w.payments[id];
    FirstMove(w, id, Begin(first));
    var r := After(w, id, [Begin(first)]);
    assert r == Race(w, [Sync(first, Heard(p))], None, None);
    OneMove(w, id, [Begin(first)], Begin(second));
  }

  lemma OneMove(w: World, id: string, moves: seq<Move>, move: Move)
    requires id in w.payments
    ensures After(w, id, moves + [move]) == Moved(After(w, id, moves), id, move)
  {
    assert (moves + [move])[..|moves|] == moves;
  }

  lemma SaveMove(w: World, id: string, moves: seq<Move>, k: nat)
    requires id in w.payments && k < |After(w, id, moves).syncs|
    requires var s := After(w, id, moves).syncs[k]; s.stage.Heard? && Told(s.stage.loaded, s.report) != s.stage.loaded
    ensures var r := After(w, id, moves);
      Stands(After(w, id, moves + [Continue(k)]), r.syncs[k := Sync(r.syncs[k].report, RowSaved)], Some(k), r.updater)
  {
    OneMove(w, id, moves, Continue(k));
  }

  lemma UpdateMove(w: World, id: string, moves: seq<Move>, k: nat)
    requires id in w.payments && k < |After(w, id, moves).syncs| && After(w, id, moves).syncs[k].stage.RowSaved?
    ensures var r := After(w, id, moves);
      Stands(After(w, id, moves + [Continue(k)]), r.syncs[k := Sync(r.syncs[k].report, Finished)], r.saver, Some(k))
  {
    OneMove(w, id, moves, Continue(k));
  }

  lemma BothSaved(w: World, id: string, first: Report, second: Report, moves: seq<Move>)
    requires id in w.payments && Told(w.payments[id], first) != w.payments[id]
        && Told(w.payments[id], second) != w.payments[id]
    requires var p := w.payments[id];
      Stands(After(w, id, moves), [Sync(first, Heard(p)), Sync(second, Heard(p))], None, None)
    ensures Stands(After(w, id, moves + [Continue(0)] + [Continue(1)]), [Sync(first, RowSaved), Sync(second, RowSaved)],
                   Some(1), None)
  {
    SaveMove(w, id, moves, 0);
    SaveMove(w, id, moves + [Continue(0)], 1);
  }

  lemma BothUpdated(w: World, id: string, first: Report, second: Report, moves: seq<Move>)
    requires id in w.payments
    requires Stands(After(w, id, moves), [Sync(first, RowSaved), Sync(second, RowSaved)], Some(1), None)
    ensures Stands(After(w, id, moves + [Continue(1)] + [Continue(0)]), [Sync(first, Finished), Sync(second, Finished)],
                   Some(1), Some(0))
  {
    UpdateMove(w, id, moves, 1);
    UpdateMove(w, id, moves + [Continue(1)], 0);
  }

  lemma CrossedRace(w: World, id: string, first: Report, second: Report)
    requires id in w.payments && Told(w.payments[id], first) != w.payments[id]
        && Told(w.payments[id], second) != w.payments[id]
    ensures Stands(After(w, id, CrossedMoves(first, second)), [Sync(first, Finished), Sync(second, Finished)],
                   Some(1), Some(0))
  {
    var begun := Begun(first, second);
    var saved := begun + [Continue(0)] + [Continue(1)];
    BothHeard(w, id, first, second);
    BothSaved(w, id, first, second, begun);
    BothUpdated(w, id, first, second, saved);
  }

  /** A crossed race with reports of different ledger statuses leaves the ledger behind. */
  lemma CrossedRaceLeavesTheLedgerBehind(w: World, id: string, first: Report, second: Report)
    requires LedgerMirror.Ok(w) && id in w.payments && w.payments[id].authenticationCode != "" && !LacksRow(w, id)
    requires Concerns(w.payments[id], first) && Concerns(w.payments[id], second)
    requires Told(w.payments[id], first) != w.payments[id] && Told(w.payments[id], second) != w.payments[id]
    requires LedgerStatus(Told(w.payments[id], first)) != LedgerStatus(Told(w.payments[id], second))
    ensures var r := After(w, id, CrossedMoves(first, second));
      Quiet(r) && !Mirrored(r.w.ledger, id, r.w.payments[id])
  {
    CrossedRace(w, id, first, second);
    CrossedMovesConcern(w.payments[id], first, second);
    LastWritersDecide(w, id, CrossedMoves(first, second), first, second);
  }

  lemma CrossedMovesConcern(p: Payment, first: Report, second: Report)
    requires Concerns(p, first) && Concerns(p, second)
    ensures Concerned(p, CrossedMoves(first, second))
  {
  }

  lemma LastWritersDecide(w: World, id: string, moves: seq<Move>, first: Report, second: Report)
    requires LedgerMirror.Ok(w) && id in w.payments && Concerned(w.payments[id], moves)
    requires w.payments[id].authenticationCode != "" && !LacksRow(w, id)
    requires Stands(After(w, id, moves), [Sync(first, Finished), Sync(second, Finished)], Some(1), Some(0))
    requires LedgerStatus(Told(w.payments[id], first)) != LedgerStatus(Told(w.payments[id], second))
    ensures var r := After(w, id, moves);
      Quiet(r) && !Mirrored(r.w.ledger, id, r.w.payments[id])
  {
    RaceEndsMirroredIff(w, id, moves);
  }
}
