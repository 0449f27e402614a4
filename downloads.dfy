/**
 * Per-item download accounting.
 *
 * What the filesystem and the network answer for one item is abstracted
 * into a `Probe`; the decision tree that reads it is `OutcomeOf`. The two
 * shared counters live in a `Downloader`. The workers run in parallel but
 * touch nothing shared except these counters, and only by atomic additions,
 * so processing the items one after another gives the same totals.
 */
module Downloads {
  import opened Numbers

  const STATUS_OK: nat := 200

  /** The result of `reqwest::blocking::get(url)`. */
  datatype GetReply = SendError | Reply(status: nat)

  /**
   * What the environment answers for one item: whether its destination
   * already exists, what the GET returned, whether `File::create` succeeded
   * and whether `io::copy` succeeded. A field the decision tree does not
   * reach is never consulted.
   */
  datatype Probe = Probe(fileExists: bool, get: GetReply, created: bool, copied: bool)

  /** How one item ended. */
  datatype Outcome = FileExists | GetFailed | NonOk | CreateFailed | Written

  /** The three outcomes that are counted as errors. */
  predicate IsError(o: Outcome) {
    o.GetFailed? || o.NonOk? || o.CreateFailed?
  }

  /** The decision tree of one worker. */
  function OutcomeOf(p: Probe): Outcome {
    if p.fileExists then FileExists
    else match p.get
      case SendError => GetFailed
      case Reply(status) =>
        if status != STATUS_OK then NonOk
        else if !p.created then CreateFailed
        else Written
  }

  /**
   * An item counts as an error exactly when its destination was missing and
   * then the GET failed, the status was not 200 or the file could not be
   * created. A failed copy is never an error.
   */
  lemma ErrorCases(p: Probe)
    ensures IsError(OutcomeOf(p)) <==>
              !p.fileExists && (p.get.SendError? || p.get.status != STATUS_OK || !p.created)
    ensures OutcomeOf(p.(copied := !p.copied)) == OutcomeOf(p)
  {
  }

  function Outcomes(probes: seq<Probe>): (r: seq<Outcome>)
    ensures |r| == |probes|
  {
    seq(|probes|, k requires 0 <= k < |probes| => OutcomeOf(probes[k]))
  }

  /** The number of error outcomes. */
  function ErrorCount(os: seq<Outcome>): (r: nat)
    ensures r <= |os|
    decreases |os|
  {
    if os == [] then 0 else ErrorCount(os[..|os| - 1]) + (if IsError(os[|os| - 1]) then 1 else 0)
  }

  /** The number of items that were skipped as present or reached the write step. */
  function CompletedCount(os: seq<Outcome>): (r: nat)
    ensures r <= |os|
    decreases |os|
  {
    if os == [] then 0 else CompletedCount(os[..|os| - 1]) + (if IsError(os[|os| - 1]) then 0 else 1)
  }

  /** Every item is either an error or completed, never both. */
  lemma {:induction false} CountsPartition(os: seq<Outcome>)
    ensures ErrorCount(os) + CompletedCount(os) == |os|
    decreases |os|
  {
    if os != [] {
      CountsPartition(os[..|os| - 1]);
    }
  }

  /** The `installed` and `errored` counters shared by all workers. */
  class Downloader {
    var installed: nat
    var errored: nat

    /** Errors never outnumber attempts. */
    ghost predicate Valid()
      reads this
    {
      errored <= installed
    }

    constructor ()
      ensures Valid() && installed == 0 && errored == 0
    {
      installed, errored := 0, 0;
    }

    /**
     * One worker: count the attempt first, then skip a present file, and
     * otherwise count an error when the GET fails, the status is not 200 or
     * the file cannot be created. The copy's result is discarded.
     */
    method Download(p: Probe) returns (o: Outcome)
      requires Valid()
      modifies this
      ensures Valid()
      ensures o == OutcomeOf(p)
      ensures installed == old(installed) + 1
      ensures errored == old(errored) + (if IsError(o) then 1 else 0)
    {
      installed := installed + 1;
      if !p.fileExists {
        match p.get {
          case Reply(status) =>
            if status == STATUS_OK {
              if p.created {
                o := Written;
              } else {
                errored := errored + 1;
                o := CreateFailed;
              }
            } else {
              errored := errored + 1;
              o := NonOk;
            }
          case SendError =>
            errored := errored + 1;
            o := GetFailed;
        }
      } else {
        o := FileExists;
      }
    }

    /** All workers, one after another. */
    method Run(probes: seq<Probe>) returns (outcomes: seq<Outcome>)
      requires Valid()
      modifies this
      ensures Valid()
      ensures outcomes == Outcomes(probes)
      ensures installed == old(installed) + |probes|
      ensures errored == old(errored) + ErrorCount(outcomes)
    {
      outcomes := [];
      var i := 0;
      while i < |probes|
        invariant 0 <= i <= |probes|
        invariant Valid()
        invariant outcomes == Outcomes(probes[..i])
        invariant installed == old(installed) + i
        invariant errored == old(errored) + ErrorCount(outcomes)
      {
        var o := Download(probes[i]);
        assert (outcomes + [o])[..i] == outcomes;
        outcomes := outcomes + [o];
        assert probes[..i + 1][..i] == probes[..i];
        i := i + 1;
      }
      assert probes[..i] == probes;
    }
  }

  /** `installed - errored` as a `u64` subtraction; it wraps only if errors outnumbered attempts. */
  function Downloaded(installed: nat, errored: nat): (r: u64)
    ensures errored <= installed < U64_MODULUS ==> r as int == installed - errored
  {
    Wrap(installed - errored)
  }

  /**
   * After one run from fresh counters, the "Downloaded" figure never
   * underflows and counts the items that were present or reached the write
   * step.
   */
  lemma SummaryOfRun(probes: seq<Probe>, installed: nat, errored: nat)
    requires installed == |probes| < U64_MODULUS
    requires errored == ErrorCount(Outcomes(probes))
    ensures errored <= installed
    ensures Downloaded(installed, errored) as int == CompletedCount(Outcomes(probes))
  {
    CountsPartition(Outcomes(probes));
  }

  /** Three items: one present, one fetched with status 200, one answered 404. */
  lemma ThreeItemExample()
    ensures var probes := [Probe(true, SendError, false, false),
                           Probe(false, Reply(200), true, true),
                           Probe(false, Reply(404), false, false)];
            && ErrorCount(Outcomes(probes)) == 1
            && CompletedCount(Outcomes(probes)) == 2
            && Downloaded(|probes|, ErrorCount(Outcomes(probes))) as int == 2
  {
    var probes := [Probe(true, SendError, false, false),
                   Probe(false, Reply(200), true, true),
                   Probe(false, Reply(404), false, false)];
    var os := Outcomes(probes);
    assert os == [FileExists, Written, NonOk];
    assert os[..2] == [FileExists, Written] && os[..2][..1] == [FileExists] && [FileExists][..0] == [];
    assert ErrorCount(os[..2]) == 0;
    SummaryOfRun(probes, 3, 1);
  }
}
