/** The scan controller's session as a value, and the effect of each event on
    it: the scan callback `process_scan`, the Confirm and Skip buttons of the
    found-material card, and the Clear-history and Reset-scanner buttons. The
    class in module Scanner performs these updates in place. */
module SessionSpec {
  import opened Wrappers
  import opened Text
  import opened Sequences
  import opened Inventory
  import opened Ledger

  /** `scanner_state`: "ready" shows the input field, "found" the card. */
  datatype Phase = Ready | Found

  /** The session fields the controller reads and writes. */
  datatype Session = Session(
    phase: Phase,                      // scanner_state
    lastProcessed: string,             // last_processed
    scannerInput: string,              // scanner_input
    currentMaterial: Option<string>,   // current_material
    foundMaterial: Option<Material>,   // found_material_data
    scanError: Option<string>,         // scan_error
    scanSuccess: bool,                 // scan_success
    history: seq<Entry>)               // check_history

  /** The session defaults set when the page first runs. */
  function Initial(): (s: Session)
  {
    Session(Ready, "", "", None, None, None, false, [])
  }

  /** A material is on the card exactly in the found phase, and it is the row
      whose identifier was scanned. */
  predicate Inv(s: Session) {
    && (s.phase == Found <==> s.currentMaterial.Some?)
    && (s.phase == Found <==> s.foundMaterial.Some?)
    && (s.phase == Found ==> s.foundMaterial.value.id == s.currentMaterial.value)
  }

  function WrongStatusMessage(expected: string, actual: string): (msg: string)
  {
    "Avanço incorreto! Esperado: " + expected + ", Atual: " + actual
  }

  function NotFoundMessage(id: string): (msg: string)
  {
    "ID '" + id + "' não encontrado!"
  }

  /** The wrong-status message names the expected and the actual status. */
  lemma WrongStatusMessageNames(expected: string, actual: string)
    ensures Contains(WrongStatusMessage(expected, actual), expected)
    ensures Contains(WrongStatusMessage(expected, actual), actual)
  {
    var msg := WrongStatusMessage(expected, actual);
    var head := "Avanço incorreto! Esperado: ";
    var mid := ", Atual: ";
    assert msg[|head|..|head| + |expected|] == expected;
    assert OccursAt(msg, expected, |head|);
    ContainsIff(msg, expected);
    var k := |head| + |expected| + |mid|;
    assert msg[k..k + |actual|] == actual;
    assert OccursAt(msg, actual, k);
    ContainsIff(msg, actual);
  }

  /** The not-found message names the scanned identifier. */
  lemma NotFoundMessageNames(id: string)
    ensures Contains(NotFoundMessage(id), id)
  {
    var msg := NotFoundMessage(id);
    assert msg[4..4 + |id|] == id;
    assert OccursAt(msg, id, 4);
    ContainsIff(msg, id);
  }

  /** `process_scan`: `input` is the text in the scanner field, `target` the
      status being looked for, `filtered` the currently filtered table and
      `now` the check time. A match only opens the card; a wrong status or an
      unknown identifier is recorded at once. The history only grows, by at
      most one entry. */
  function Scan(s: Session, input: string, target: string, filtered: seq<Material>, now: string): (r: Session)
    ensures s.history <= r.history && |r.history| <= |s.history| + 1
  {
    var id := Trim(input);
    if id == "" || id == s.lastProcessed then s
    else
      var s := s.(lastProcessed := id);
      if filtered == [] then s
      else match Lookup(filtered, id)
        case Some(m) =>
          if m.status == target then
            s.(phase := Found, currentMaterial := Some(id), foundMaterial := Some(m),
               scanSuccess := true, scannerInput := "")
          else
            s.(history := s.history + [RowEntry(id, m, now, WrongStatus)],
               scanError := Some(WrongStatusMessage(target, m.status)), scannerInput := "")
        case None =>
          s.(history := s.history + [NotFoundEntry(id, now)],
             scanError := Some(NotFoundMessage(id)), scannerInput := "")
  }

  /** The Confirm button: record the carded material as found, then return
      to the input field with the de-duplication guard cleared. */
  function Confirm(s: Session, now: string): (r: Session)
    requires s.phase == Found && Inv(s)
  {
    s.(history := s.history + [RowEntry(s.currentMaterial.value, s.foundMaterial.value, now, Confirmed)],
       phase := Ready, currentMaterial := None, foundMaterial := None,
       scannerInput := "", lastProcessed := "")
  }

  /** The Skip button: the same return to the input field, recording nothing. */
  function Skip(s: Session): (r: Session)
  {
    s.(phase := Ready, currentMaterial := None, foundMaterial := None,
       scannerInput := "", lastProcessed := "")
  }

  /** The Clear-history button. */
  function ClearHistory(s: Session): (r: Session)
  {
    s.(history := [])
  }

  /** The Reset-scanner button: every scanner field back to its default,
      the history kept. This is the complete reset the button is meant to
      perform; `ResetScannerAsWritten` is what its code does. */
  function ResetScanner(s: Session): (r: Session)
  {
    s.(phase := Ready, currentMaterial := None, foundMaterial := None,
       scannerInput := "", lastProcessed := "", scanError := None, scanSuccess := false)
  }

  /** The scanner field is on the page, and so already drawn when the history
      section's buttons run, when the phase is ready and the filtered table
      offers at least one status to look for. */
  predicate InputFieldDrawn(s: Session, filtered: seq<Material>) {
    s.phase == Ready && filtered != []
  }

  /** The Reset-scanner button as its code runs: the session keys are written
      in the order `scanner_state`, `current_material`,
      `found_material_data`, `scanner_input`, ...; Streamlit refuses a write
      to the key of a widget already drawn in the same run, so when the
      scanner field is on the page the run stops at the fourth write. */
  function ResetScannerAsWritten(s: Session, filtered: seq<Material>): (r: Session)
  {
    if InputFieldDrawn(s, filtered) then
      s.(phase := Ready, currentMaterial := None, foundMaterial := None)
    else
      ResetScanner(s)
  }

  /** With the scanner field on the page the reset as written changes nothing,
      so the de-duplication guard survives it: scanning the last identifier
      again is still ignored. */
  lemma ResetAsWrittenKeepsGuard(s: Session, filtered: seq<Material>, input: string, target: string, now: string)
    requires Inv(s) && InputFieldDrawn(s, filtered)
    requires Trim(input) == s.lastProcessed
    ensures ResetScannerAsWritten(s, filtered) == s
    ensures var r := ResetScannerAsWritten(s, filtered);
            Scan(r, input, target, filtered, now) == r
  {
  }

  /** After the complete reset the card invariant holds and every non-blank
      scan is processed afresh, the last identifier included. */
  lemma ResetReenablesScan(s: Session, input: string, target: string, filtered: seq<Material>, now: string)
    requires !AllSpace(input)
    ensures Inv(ResetScanner(s)) && ResetScanner(s).lastProcessed == ""
    ensures Scan(ResetScanner(s), input, target, filtered, now).lastProcessed == Trim(input) != ""
  {
    TrimEmptyIff(input);
  }

  /** Wherever the scanner field is not on the page (the found phase, or an
      empty filtered table) the reset as written is the complete reset. */
  lemma ResetAsWrittenElsewhere(s: Session, filtered: seq<Material>)
    requires !InputFieldDrawn(s, filtered)
    ensures ResetScannerAsWritten(s, filtered) == ResetScanner(s)
  {
  }

  // ---------------------------------------------------------------------------
  // Properties of the scan callback

  /** Blank input (empty or whitespace only) and a repeat of the last processed
      identifier change nothing at all. */
  lemma ScanIgnoresBlankAndRepeat(s: Session, input: string, target: string, filtered: seq<Material>, now: string)
    requires AllSpace(input) || Trim(input) == s.lastProcessed
    ensures Scan(s, input, target, filtered, now) == s
  {
    TrimEmptyIff(input);
  }

  /** Scanning the same text twice in a row records at most once: the second
      call is a no-op whatever the table, target and time are then. */
  lemma ScanIdempotent(s: Session, input: string, target: string, filtered: seq<Material>, now: string,
                       target': string, filtered': seq<Material>, now': string)
    ensures var r := Scan(s, input, target, filtered, now);
            Scan(r, input, target', filtered', now') == r
  {
  }

  /** The guard is recorded before the table is consulted: with an empty
      table a new identifier only updates `lastProcessed`. */
  lemma ScanEmptyTable(s: Session, input: string, target: string, now: string)
    requires !AllSpace(input) && Trim(input) != s.lastProcessed
    ensures Scan(s, input, target, [], now) == s.(lastProcessed := Trim(input))
  {
    TrimEmptyIff(input);
  }

  /** A new identifier whose first row in the table has the target status
      opens the card with that row and records nothing yet. */
  lemma ScanMatched(s: Session, input: string, target: string, filtered: seq<Material>, now: string, i: int)
    requires !AllSpace(input) && Trim(input) != s.lastProcessed
    requires 0 <= i < |filtered| && filtered[i].id == Trim(input)
    requires forall j :: 0 <= j < i ==> filtered[j].id != Trim(input)
    requires filtered[i].status == target
    ensures Scan(s, input, target, filtered, now) ==
              s.(phase := Found, lastProcessed := Trim(input), currentMaterial := Some(Trim(input)),
                 foundMaterial := Some(filtered[i]), scanSuccess := true, scannerInput := "")
  {
    TrimEmptyIff(input);
    LookupAt(filtered, Trim(input), i);
  }

  /** A new identifier whose first row has another status appends exactly one
      entry carrying that row's actual status, reports an error naming both
      statuses, clears the input field, and changes nothing else. */
  lemma ScanWrongStatus(s: Session, input: string, target: string, filtered: seq<Material>, now: string, i: int)
    requires !AllSpace(input) && Trim(input) != s.lastProcessed
    requires 0 <= i < |filtered| && filtered[i].id == Trim(input)
    requires forall j :: 0 <= j < i ==> filtered[j].id != Trim(input)
    requires filtered[i].status != target
    ensures Scan(s, input, target, filtered, now) ==
              s.(lastProcessed := Trim(input),
                 history := s.history + [Entry(Trim(input), filtered[i].stage, filtered[i].traitTag,
                                               filtered[i].status, now, WrongStatus)],
                 scanError := Some(WrongStatusMessage(target, filtered[i].status)),
                 scannerInput := "")
    ensures Contains(WrongStatusMessage(target, filtered[i].status), target)
    ensures Contains(WrongStatusMessage(target, filtered[i].status), filtered[i].status)
  {
    TrimEmptyIff(input);
    LookupAt(filtered, Trim(input), i);
    WrongStatusMessageNames(target, filtered[i].status);
  }

  /** A new identifier absent from a non-empty table appends exactly one
      "not found" entry, reports an error naming it, clears the input, and
      changes nothing else. */
  lemma ScanNotFound(s: Session, input: string, target: string, filtered: seq<Material>, now: string)
    requires !AllSpace(input) && Trim(input) != s.lastProcessed
    requires filtered != []
    requires forall j :: 0 <= j < |filtered| ==> filtered[j].id != Trim(input)
    ensures Scan(s, input, target, filtered, now) ==
              s.(lastProcessed := Trim(input),
                 history := s.history + [Entry(Trim(input), "Não encontrado", "N/A", "N/A", now, NotFound)],
                 scanError := Some(NotFoundMessage(Trim(input))),
                 scannerInput := "")
    ensures Contains(NotFoundMessage(Trim(input)), Trim(input))
  {
    TrimEmptyIff(input);
    LookupFirst(filtered, Trim(input));
    NotFoundMessageNames(Trim(input));
  }

  // ---------------------------------------------------------------------------
  // The two-phase commit of a match

  /** Confirming a matched scan appends exactly one "Sim" entry for the row
      and returns to the input field with the guard and the input cleared;
      skipping it does the same return and appends nothing. */
  lemma ConfirmOrSkipAfterMatch(s: Session, input: string, target: string, filtered: seq<Material>,
                                now: string, later: string, i: int)
    requires Inv(s)
    requires !AllSpace(input) && Trim(input) != s.lastProcessed
    requires 0 <= i < |filtered| && filtered[i].id == Trim(input)
    requires forall j :: 0 <= j < i ==> filtered[j].id != Trim(input)
    requires filtered[i].status == target
    ensures var found := Scan(s, input, target, filtered, now);
            && found.phase == Found && Inv(found)
            && Confirm(found, later).history ==
                 s.history + [Entry(filtered[i].id, filtered[i].stage, filtered[i].traitTag, target, later, Confirmed)]
            && Skip(found).history == s.history
            && Confirm(found, later).phase == Ready && Skip(found).phase == Ready
            && Confirm(found, later).lastProcessed == "" && Skip(found).lastProcessed == ""
            && Confirm(found, later).scannerInput == "" && Skip(found).scannerInput == ""
  {
    ScanMatched(s, input, target, filtered, now, i);
  }

  // ---------------------------------------------------------------------------
  // Invariant, history and progress across all events

  /** Every event keeps the card consistent with the phase. */
  lemma InvPreserved(s: Session, input: string, target: string, filtered: seq<Material>, now: string)
    requires Inv(s)
    ensures Inv(Initial())
    ensures Inv(Scan(s, input, target, filtered, now))
    ensures s.phase == Found ==> Inv(Confirm(s, now))
    ensures Inv(Skip(s)) && Inv(ClearHistory(s)) && Inv(ResetScanner(s))
  {
    var id := Trim(input);
    if id != "" && id != s.lastProcessed && filtered != [] {
      var r := Scan(s, input, target, filtered, now);
      LookupFirst(filtered, id);
      match Lookup(filtered, id)
      case Some(m) =>
        if m.status == target {
          assert r.foundMaterial == Some(m) && r.currentMaterial == Some(id) && r.phase == Found;
        } else {
          assert r.phase == s.phase && r.foundMaterial == s.foundMaterial && r.currentMaterial == s.currentMaterial;
        }
      case None =>
        assert r.phase == s.phase && r.foundMaterial == s.foundMaterial && r.currentMaterial == s.currentMaterial;
    }
  }

  /** Only the Clear-history button removes entries; every other event keeps
      the existing history as a prefix. */
  lemma HistoryOnlyGrows(s: Session, input: string, target: string, filtered: seq<Material>, now: string)
    requires Inv(s)
    ensures s.history <= Scan(s, input, target, filtered, now).history
    ensures s.phase == Found ==> |Confirm(s, now).history| == |s.history| + 1 && s.history <= Confirm(s, now).history
    ensures Skip(s).history == s.history && ResetScanner(s).history == s.history
    ensures ClearHistory(s).history == []
  {
  }

  /** The guard is set only by a scan (to the stripped identifier) and reset
      to "" by Confirm, Skip and Reset scanner; Clear history leaves it. */
  lemma LastProcessedUpdates(s: Session, input: string, target: string, filtered: seq<Material>, now: string)
    requires Inv(s)
    ensures var r := Scan(s, input, target, filtered, now);
            r.lastProcessed == s.lastProcessed || r.lastProcessed == Trim(input)
    ensures s.phase == Found ==> Confirm(s, now).lastProcessed == ""
    ensures Skip(s).lastProcessed == "" && ResetScanner(s).lastProcessed == ""
    ensures ClearHistory(s).lastProcessed == s.lastProcessed
  {
    var id := Trim(input);
    if id != "" && id != s.lastProcessed && filtered != [] {
      var r := Scan(s, input, target, filtered, now);
      match Lookup(filtered, id)
      case Some(m) => assert r.lastProcessed == id;
      case None => assert r.lastProcessed == id;
    }
  }

  /** A scan never moves the progress counters: it records no confirmation. */
  lemma ProgressUnderScan(s: Session, input: string, target: string, filtered: seq<Material>, now: string,
                          table: seq<Material>, counted: string)
    ensures Progress(table, Scan(s, input, target, filtered, now).history, counted) == Progress(table, s.history, counted)
  {
    var r := Scan(s, input, target, filtered, now);
    if r.history != s.history {
      var e := r.history[|s.history|];
      assert r.history == s.history + [e];
      assert e.verdict != Confirmed;
      ProgressAppend(table, s.history, e, counted);
    }
  }

  /** Of the buttons, Confirm raises `verified` by one when the confirmed row
      has the counted status, Clear history brings it back to zero (so
      `missing` is the whole total), and Skip and Reset scanner leave the
      counters as they were. */
  lemma ProgressUnderButtons(s: Session, now: string, table: seq<Material>, counted: string)
    requires Inv(s)
    ensures s.phase == Found ==>
              Progress(table, Confirm(s, now).history, counted).verified ==
                Progress(table, s.history, counted).verified + (if s.foundMaterial.value.status == counted then 1 else 0)
    ensures Progress(table, Skip(s).history, counted) == Progress(table, s.history, counted)
    ensures Progress(table, ResetScanner(s).history, counted) == Progress(table, s.history, counted)
    ensures Progress(table, ClearHistory(s).history, counted).verified == 0
    ensures Progress(table, ClearHistory(s).history, counted).missing == Progress(table, s.history, counted).total
  {
    if s.phase == Found {
      ProgressAppend(table, s.history, RowEntry(s.currentMaterial.value, s.foundMaterial.value, now, Confirmed), counted);
    }
    assert Confirmations([], counted) == [];
  }
}
