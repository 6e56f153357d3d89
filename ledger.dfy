/** The check history (`check_history`): its entries, the three kinds of
    verdict, and the progress counters computed from it. */
module Ledger {
  import opened Sequences
  import opened Inventory

  /** The `encontrado` column of an entry. */
  datatype Verdict = Confirmed | NotFound | WrongStatus {
    function Label(): (l: string)
    {
      match this
      case Confirmed => "Sim"
      case NotFound => "Não"
      case WrongStatus => "Não - Avanço incorreto"
    }
  }

  /** The progress counter compares the label with "Sim"; only a confirmed
      check carries it. */
  lemma LabelIsSimIff(v: Verdict)
    ensures v.Label() == "Sim" <==> v == Confirmed
  {
  }

  /** One history row: `id_codigo`, `etapa_programa`, `trait`, `avanco`,
      `check_time`, `encontrado`. The time is an opaque string supplied by the
      caller. */
  datatype Entry = Entry(id: string, stage: string, traitTag: string, status: string, checkTime: string, verdict: Verdict)

  const NotFoundStage: string := "Não encontrado"
  const NotApplicable: string := "N/A"

  /** The entry for an identifier absent from the filtered table. */
  function NotFoundEntry(id: string, now: string): (e: Entry)
  {
    Entry(id, NotFoundStage, NotApplicable, NotApplicable, now, NotFound)
  }

  /** The entry for a row found under `id`, with the given verdict; the row's
      own status is recorded, whatever the operator was looking for. */
  function RowEntry(id: string, m: Material, now: string, verdict: Verdict): (e: Entry)
  {
    Entry(id, m.stage, m.traitTag, m.status, now, verdict)
  }

  /** `total`, `encontrados` and `faltantes` of the statistics panel. */
  datatype Counts = Counts(total: nat, verified: nat, missing: int)

  /** A history entry that the progress counter credits to `target`. */
  predicate Verifies(h: Entry, target: string) {
    h.verdict.Label() == "Sim" && h.status == target
  }

  /** `filtered_df[filtered_df['avanco'] == target]`. */
  function WithStatus(filtered: seq<Material>, target: string): (r: seq<Material>)
  {
    Where(filtered, (m: Material) => m.status == target)
  }

  /** The history comprehension behind `encontrados`. */
  function Confirmations(history: seq<Entry>, target: string): (r: seq<Entry>)
  {
    Where(history, (h: Entry) => Verifies(h, target))
  }

  /** Rows of the filtered table with status `target`, history entries
      confirmed under `target`, and their difference, not clamped at zero. */
  function Progress(filtered: seq<Material>, history: seq<Entry>, target: string): (c: Counts)
    ensures c.total <= |filtered| && c.verified <= |history|
  {
    var total := |WithStatus(filtered, target)|;
    var verified := |Confirmations(history, target)|;
    Counts(total, verified, total - verified)
  }

  /** The counters count what they say: each counted row has the target
      status, each counted entry is a confirmation under the target, and
      `missing` is their plain difference. */
  lemma ProgressSpec(filtered: seq<Material>, history: seq<Entry>, target: string)
    ensures Progress(filtered, history, target).missing ==
              Progress(filtered, history, target).total - Progress(filtered, history, target).verified
    ensures Progress(filtered, history, target).verified == 0 <==>
              forall i :: 0 <= i < |history| ==> !(history[i].verdict == Confirmed && history[i].status == target)
    ensures Progress(filtered, history, target).total == 0 <==>
              forall i :: 0 <= i < |filtered| ==> filtered[i].status != target
  {
    forall h: Entry ensures Verifies(h, target) == (h.verdict == Confirmed && h.status == target) {
      LabelIsSimIff(h.verdict);
    }
    WhereFirst(history, (h: Entry) => Verifies(h, target));
    WhereFirst(filtered, (m: Material) => m.status == target);
  }

  /** Appending one entry changes only `verified`, and only by one, and only
      for a confirmation under the target. */
  lemma ProgressAppend(filtered: seq<Material>, history: seq<Entry>, e: Entry, target: string)
    ensures Progress(filtered, history + [e], target).total == Progress(filtered, history, target).total
    ensures Progress(filtered, history + [e], target).verified ==
              Progress(filtered, history, target).verified + (if e.verdict == Confirmed && e.status == target then 1 else 0)
  {
    LabelIsSimIff(e.verdict);
    WhereAppend(history, e, (h: Entry) => Verifies(h, target));
  }

  /** `faltantes` is reported as is: confirming the same material twice drives
      it below zero. */
  lemma ProgressNotClamped(m: Material, now: string)
    ensures Progress([m], [RowEntry(m.id, m, now, Confirmed), RowEntry(m.id, m, now, Confirmed)], m.status).missing == -1
  {
    var e := RowEntry(m.id, m, now, Confirmed);
    WhereAppend([e], e, (h: Entry) => Verifies(h, m.status));
  }
}
