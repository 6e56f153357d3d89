/** The scan controller as the page runs it: session fields updated in place
    by the scan callback and the four buttons. Each method is proved to
    perform exactly the transition SessionSpec defines for it. */
module Scanner {
  import opened Wrappers
  import opened Text
  import opened Inventory
  import opened Ledger
  import opened SessionSpec

  class ScanSession {
    var phase: Phase
    var lastProcessed: string
    var scannerInput: string
    var currentMaterial: Option<string>
    var foundMaterial: Option<Material>
    var scanError: Option<string>
    var scanSuccess: bool
    var history: seq<Entry>

    /** The fields as a session value. */
    function View(): (s: Session)
      reads this
    {
      Session(phase, lastProcessed, scannerInput, currentMaterial, foundMaterial, scanError, scanSuccess, history)
    }

    ghost predicate Valid()
      reads this
    {
      Inv(View())
    }

    /** The session defaults. */
    constructor ()
      ensures Valid() && View() == Initial()
    {
      phase := Ready;
      lastProcessed := "";
      scannerInput := "";
      currentMaterial := None;
      foundMaterial := None;
      scanError := None;
      scanSuccess := false;
      history := [];
    }

    /** The callback fired when the scanner field changes; `input` is the
        field's text at that moment. */
    method ProcessScan(input: string, target: string, filtered: seq<Material>, now: string)
      requires Valid()
      modifies this
      ensures Valid()
      ensures View() == Scan(old(View()), input, target, filtered, now)
    {
      ghost var before := View();
      InvPreserved(before, input, target, filtered, now);
      var id := Trim(input);
      if id == "" {
        return;
      }
      if lastProcessed == id {
        return;
      }
      lastProcessed := id;
      if filtered == [] {
        return;
      }
      var row := Lookup(filtered, id);
      match row {
        case Some(m) =>
          if m.status == target {
            phase := Found;
            currentMaterial := Some(id);
            foundMaterial := Some(m);
            scanSuccess := true;
          } else {
            history := history + [RowEntry(id, m, now, WrongStatus)];
            scanError := Some(WrongStatusMessage(target, m.status));
          }
        case None =>
          history := history + [NotFoundEntry(id, now)];
          scanError := Some(NotFoundMessage(id));
      }
      scannerInput := "";
    }

    /** The Confirm button of the found-material card. */
    method Confirm(now: string)
      requires Valid() && phase == Found
      modifies this
      ensures Valid()
      ensures View() == SessionSpec.Confirm(old(View()), now)
    {
      history := history + [RowEntry(currentMaterial.value, foundMaterial.value, now, Confirmed)];
      phase := Ready;
      currentMaterial := None;
      foundMaterial := None;
      scannerInput := "";
      lastProcessed := "";
    }

    /** The Skip button of the found-material card. */
    method Skip()
      requires Valid()
      modifies this
      ensures Valid()
      ensures View() == SessionSpec.Skip(old(View()))
    {
      phase := Ready;
      currentMaterial := None;
      foundMaterial := None;
      scannerInput := "";
      lastProcessed := "";
    }

    /** The Clear-history button. */
    method ClearHistory()
      requires Valid()
      modifies this
      ensures Valid()
      ensures View() == SessionSpec.ClearHistory(old(View()))
    {
      history := [];
    }

    /** The Reset-scanner button. */
    method ResetScanner()
      requires Valid()
      modifies this
      ensures Valid()
      ensures View() == SessionSpec.ResetScanner(old(View()))
    {
      phase := Ready;
      currentMaterial := None;
      foundMaterial := None;
      scannerInput := "";
      lastProcessed := "";
      scanError := None;
      scanSuccess := false;
    }
  }

  /** A client run over any two materials and a target status that only the
      first one has: the first is matched and confirmed, the second is
      recorded with its wrong status, an unknown identifier is recorded as
      not found, and scanning it again records nothing more. */
  method ScanWalkthrough(a1: Material, a2: Material, unknown: string, target: string,
                         t1: string, t2: string, t3: string, t4: string, t5: string)
    requires Unpadded(a1.id) && Unpadded(a2.id) && Unpadded(unknown)
    requires a1.id != a2.id && unknown != a1.id && unknown != a2.id
    requires a1.status == target && a2.status != target
  {
    var table := [a1, a2];
    var session := new ScanSession();
    TrimUnpadded(a1.id);
    TrimUnpadded(a2.id);
    TrimUnpadded(unknown);

    ScanMatched(session.View(), a1.id, target, table, t1, 0);
    session.ProcessScan(a1.id, target, table, t1);
    assert session.phase == Found && session.foundMaterial == Some(a1) && session.history == [];

    session.Confirm(t2);
    assert session.history == [RowEntry(a1.id, a1, t2, Confirmed)];
    var c := Progress(table, session.history, target);
    ProgressSpec(table, session.history, target);
    ProgressAppend(table, [], RowEntry(a1.id, a1, t2, Confirmed), target);
    assert table[1..] == [a2] && table[1..][1..] == [];
    assert WithStatus([a2], target) == WithStatus([], target);
    assert WithStatus(table, target) == [a1];
    assert c.total == 1 && c.verified == 1 && c.missing == 0;

    ScanWrongStatus(session.View(), a2.id, target, table, t3, 1);
    session.ProcessScan(a2.id, target, table, t3);
    assert session.history[1] == RowEntry(a2.id, a2, t3, WrongStatus);

    ScanNotFound(session.View(), unknown, target, table, t4);
    session.ProcessScan(unknown, target, table, t4);
    assert session.history[2] == NotFoundEntry(unknown, t4);

    ScanIgnoresBlankAndRepeat(session.View(), unknown, target, table, t5);
    session.ProcessScan(unknown, target, table, t5);
    assert |session.history| == 3;
  }
}
