/**
 * The progress reporter's exit test.
 *
 * The reporter wakes once a second, prints the `installed` counter against
 * `max_count` and stops when the two are equal. Timing, printing and the
 * thread itself are not modelled; only the exit test is.
 */
module Progress {
  import opened Numbers
  import opened Items
  import opened Requests

  /** The exit test as written: the counter equals `max_pages * 96`. */
  predicate ReporterExits(installed: nat, maxCount: u64) {
    installed == maxCount as int
  }

  /**
   * When the run ends below `max_count` the test never passes: every reading
   * the reporter takes is at most the final count, since the counter only
   * grows and stops growing when the workers are done.
   */
  lemma ShortRunNeverExits(readings: seq<nat>, final: nat, maxCount: u64)
    requires final < maxCount as int
    requires forall k :: 0 <= k < |readings| ==> readings[k] <= final
    ensures forall k :: 0 <= k < |readings| ==> !ReporterExits(readings[k], maxCount)
  {
  }

  /**
   * One requested page whose request fails: nothing is collected, so the
   * counter ends at 0 while the reporter waits for 96, and the final join
   * waits for it forever. The corrected test (`DownloadsFinished`) passes on
   * the same run.
   */
  lemma ReporterHangsAfterFailedPage(readings: seq<nat>)
    requires forall k :: 0 <= k < |readings| ==> readings[k] <= ItemCount([SendFailed])
    ensures ItemCount([SendFailed]) == 0 && MaxCount(1) == 96
    ensures forall k :: 0 <= k < |readings| ==> !ReporterExits(readings[k], MaxCount(1))
    ensures DownloadsFinished(ItemCount([SendFailed]), |Flatten([SendFailed])|)
  {
    assert [SendFailed][..0] == [];
    ShortRunNeverExits(readings, 0, MaxCount(1));
  }

  /**
   * The corrected exit test: stop once every collected item has been
   * attempted, which the orchestrator knows before the reporter starts.
   */
  predicate DownloadsFinished(installed: nat, collected: nat) {
    installed >= collected
  }

  /**
   * The corrected test never passes early and always passes once the
   * counter reaches the number of collected items, whatever the number of
   * pages requested.
   */
  lemma FixedReporterExits(readings: seq<nat>, collected: nat)
    requires forall k :: 0 <= k < |readings| ==> readings[k] <= collected
    ensures forall k :: 0 <= k < |readings| ==> (DownloadsFinished(readings[k], collected) <==> readings[k] == collected)
  {
  }
}
