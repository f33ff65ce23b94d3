/** `find_queue_family_indicies` from `src/app.rs`: a left-to-right scan over
    the device's queue-family table that records a graphics-capable family
    and a family able to present to the surface, stopping as soon as both are
    recorded.

    The scan overwrites a recorded index every time a later family matches,
    so until it stops it holds the LAST matching index seen so far. The
    reference definitions below say exactly that (`LastGraphics`,
    `LastPresent`), name the number of families the scan visits
    (`VisitedCount`), and `ScanOutcome` combines them; the method
    `FindQueueFamilyIndices` is the loop itself, proved equal to it. */
module QueueFamilies {
  import opened Wrappers
  import opened Vk

  /** `QueueFamilyIndices`: both fields start unresolved (`Default`). */
  datatype QueueFamilyIndices = QueueFamilyIndices(graphics: Option<U32>, present: Option<U32>) {
    /** `is_completed`. */
    predicate IsCompleted() {
      graphics.Some? && present.Some?
    }
  }

  /** The answer of `get_physical_device_surface_support` for one family
      index: a boolean, or the `VkResult` error the query returned. */
  type SupportAnswer = Result<bool, ErrorCode>

  /** The graphics test of the scan: a non-empty family whose flags contain
      `GRAPHICS`. */
  predicate SupportsGraphics(family: QueueFamilyProperties) {
    family.queueCount > 0 && family.queueFlags & QUEUE_GRAPHICS_BIT == QUEUE_GRAPHICS_BIT
  }

  /** The presentation test: the support query for that index answered true. */
  predicate Presents(support: seq<SupportAnswer>, i: nat)
    requires i < |support|
  {
    support[i] == Success(true)
  }

  /** One support answer per family, and every family index fits the `u32`
      the driver counts families in (so `i as u32` never truncates). */
  predicate WellFormed(families: seq<QueueFamilyProperties>, support: seq<SupportAnswer>) {
    |support| == |families| && |families| <= 0x1_0000_0000
  }

  /** The last graphics-capable index among the first `n` families. */
  function LastGraphics(families: seq<QueueFamilyProperties>, n: nat): (r: Option<U32>)
    requires n <= |families| <= 0x1_0000_0000
    ensures r.Some? ==> r.value < n && SupportsGraphics(families[r.value])
    ensures r.Some? ==> forall j :: r.value < j < n ==> !SupportsGraphics(families[j])
    ensures r.None? ==> forall j :: 0 <= j < n ==> !SupportsGraphics(families[j])
  {
    if n == 0 then None
    else if SupportsGraphics(families[n - 1]) then Some(n - 1)
    else LastGraphics(families, n - 1)
  }

  /** The last index among the first `n` whose support query answered true. */
  function LastPresent(support: seq<SupportAnswer>, n: nat): (r: Option<U32>)
    requires n <= |support| <= 0x1_0000_0000
    ensures r.Some? ==> r.value < n && Presents(support, r.value)
    ensures r.Some? ==> forall j :: r.value < j < n ==> !Presents(support, j)
    ensures r.None? ==> forall j :: 0 <= j < n ==> !Presents(support, j)
  {
    if n == 0 then None
    else if Presents(support, n - 1) then Some(n - 1)
    else LastPresent(support, n - 1)
  }

  /** The indices the scan holds once it has handled the first `n` families
      without stopping and without a query error. */
  function StateAfter(families: seq<QueueFamilyProperties>, support: seq<SupportAnswer>, n: nat): QueueFamilyIndices
    requires WellFormed(families, support) && n <= |families|
  {
    QueueFamilyIndices(LastGraphics(families, n), LastPresent(support, n))
  }

  /** Searches, from `n`, for the first prefix length after which both
      indices are resolved. */
  function CompletionFrom(families: seq<QueueFamilyProperties>, support: seq<SupportAnswer>, n: nat): (k: nat)
    requires WellFormed(families, support) && n <= |families|
    requires forall m :: 1 <= m <= n ==> !StateAfter(families, support, m).IsCompleted()
    ensures n <= k <= |families|
    ensures k == |families| || (1 <= k && StateAfter(families, support, k).IsCompleted())
    ensures forall m :: 1 <= m < k ==> !StateAfter(families, support, m).IsCompleted()
    decreases |families| - n
  {
    if n == |families| then n
    else if StateAfter(families, support, n + 1).IsCompleted() then n + 1
    else CompletionFrom(families, support, n + 1)
  }

  /** How many families the scan handles before it leaves the loop (ignoring
      query errors): the first prefix length after which both indices are
      resolved, or the whole table if that never happens. */
  function VisitedCount(families: seq<QueueFamilyProperties>, support: seq<SupportAnswer>): (k: nat)
    requires WellFormed(families, support)
    ensures k <= |families|
    ensures k == |families| || (1 <= k && StateAfter(families, support, k).IsCompleted())
    ensures forall m :: 1 <= m < k ==> !StateAfter(families, support, m).IsCompleted()
  {
    CompletionFrom(families, support, 0)
  }

  /** The first index below `n` whose support query failed. */
  function FirstError(support: seq<SupportAnswer>, n: nat): (r: Option<nat>)
    requires n <= |support|
    ensures r.Some? ==> r.value < n && support[r.value].Failure?
    ensures r.Some? ==> forall j :: 0 <= j < r.value ==> support[j].Success?
    ensures r.None? ==> forall j :: 0 <= j < n ==> support[j].Success?
  {
    if n == 0 then None
    else match FirstError(support, n - 1)
      case Some(j) => Some(j)
      case None => if support[n - 1].Failure? then Some(n - 1) else None
  }

  /** Reference outcome of the scan: the first query error among the
      visited families, or else the indices held after the visited prefix.
      An incomplete result is still a success. */
  function ScanOutcome(families: seq<QueueFamilyProperties>, support: seq<SupportAnswer>): (r: Result<QueueFamilyIndices, ErrorCode>)
    requires WellFormed(families, support)
    ensures r.Success? && r.value.graphics.Some? ==>
              r.value.graphics.value < |families| && SupportsGraphics(families[r.value.graphics.value])
    ensures r.Success? && r.value.present.Some? ==>
              r.value.present.value < |families| && Presents(support, r.value.present.value)
  {
    var k := VisitedCount(families, support);
    match FirstError(support, k)
    case Some(j) => Failure(support[j].error)
    case None => Success(StateAfter(families, support, k))
  }

  /** The number of support queries the scan actually issues: up to and
      including the first failing one, or all visited families. */
  function QueriedCount(families: seq<QueueFamilyProperties>, support: seq<SupportAnswer>): (q: nat)
    requires WellFormed(families, support)
    ensures q <= VisitedCount(families, support)
  {
    var k := VisitedCount(families, support);
    match FirstError(support, k)
    case Some(j) => j + 1
    case None => k
  }

  /** The loop of `find_queue_family_indicies`, with its `?` on the support
      query and its `break` once `is_completed` holds. */
  method FindQueueFamilyIndices(families: seq<QueueFamilyProperties>, support: seq<SupportAnswer>)
    returns (r: Result<QueueFamilyIndices, ErrorCode>)
    requires WellFormed(families, support)
    ensures r == ScanOutcome(families, support)
    ensures r.Success? && r.value.graphics.Some? ==> SupportsGraphics(families[r.value.graphics.value])
    ensures r.Success? && r.value.present.Some? ==> support[r.value.present.value] == Success(true)
  {
    var indices := QueueFamilyIndices(None, None);
    var i := 0;
    while i < |families|
      invariant 0 <= i <= |families|
      invariant indices == StateAfter(families, support, i)
      invariant forall j :: 0 <= j < i ==> support[j].Success?
      invariant forall m :: 1 <= m <= i ==> !StateAfter(families, support, m).IsCompleted()
    {
      if SupportsGraphics(families[i]) {
        indices := indices.(graphics := Some(i));
      }
      var answer := support[i];
      if answer.Failure? {
        assert VisitedCount(families, support) > i;
        return Failure(answer.error);
      }
      if answer.value {
        indices := indices.(present := Some(i));
      }
      assert indices == StateAfter(families, support, i + 1);
      if indices.IsCompleted() {
        assert VisitedCount(families, support) == i + 1;
        i := i + 1;
        break;
      }
      i := i + 1;
    }
    assert i == VisitedCount(families, support);
    r := Success(indices);
  }

  /** Once the scan succeeds with both indices, the later of the two is the
      last family it queried, no earlier prefix was already complete, and
      each index is the LAST match up to that point — so `graphics` need not
      be the first graphics-capable family. */
  lemma ScanStopsAtFirstCompletion(families: seq<QueueFamilyProperties>, support: seq<SupportAnswer>)
    requires WellFormed(families, support)
    requires ScanOutcome(families, support).Success?
    requires ScanOutcome(families, support).value.IsCompleted()
    ensures QueriedCount(families, support) >= 1
    ensures var idx := ScanOutcome(families, support).value;
            var k := QueriedCount(families, support) - 1;
            && idx.graphics.value <= k && idx.present.value <= k
            && (idx.graphics.value == k || idx.present.value == k)
            && (forall m :: 1 <= m <= k ==> !StateAfter(families, support, m).IsCompleted())
            && (forall j :: idx.graphics.value < j <= k ==> !SupportsGraphics(families[j]))
            && (forall j :: idx.present.value < j <= k ==> !Presents(support, j))
  {
    var v := VisitedCount(families, support);
    assert FirstError(support, v).None?;
    var idx := StateAfter(families, support, v);
    assert v >= 1;
    if v - 1 >= 1 {
      // the prefix one shorter was not yet complete, so one index is v - 1
      var shorter := StateAfter(families, support, v - 1);
      assert !shorter.IsCompleted();
    }
  }

  /** The last-present prefix function reads only the answers below `n`. */
  lemma {:induction false} LastPresentReadsPrefix(support: seq<SupportAnswer>, support': seq<SupportAnswer>, n: nat)
    requires n <= |support| <= 0x1_0000_0000 && n <= |support'| <= 0x1_0000_0000
    requires support[..n] == support'[..n]
    ensures LastPresent(support, n) == LastPresent(support', n)
  {
    if n > 0 {
      assert support[n - 1] == support[..n][n - 1] == support'[n - 1];
      assert support[..n - 1] == support[..n][..n - 1];
      assert support'[..n - 1] == support'[..n][..n - 1];
      LastPresentReadsPrefix(support, support', n - 1);
    }
  }

  /** Changing support answers the scan never asks for changes nothing:
      the outcome depends only on the answers for the queried indices. */
  lemma ScanIgnoresUnqueried(families: seq<QueueFamilyProperties>, support: seq<SupportAnswer>, support': seq<SupportAnswer>)
    requires WellFormed(families, support) && WellFormed(families, support')
    requires support'[..QueriedCount(families, support)] == support[..QueriedCount(families, support)]
    ensures ScanOutcome(families, support') == ScanOutcome(families, support)
  {
    var q := QueriedCount(families, support);
    var v := VisitedCount(families, support);
    var v' := VisitedCount(families, support');
    forall m | 0 <= m <= q
      ensures StateAfter(families, support, m) == StateAfter(families, support', m)
    {
      assert support[..m] == support[..q][..m];
      assert support'[..m] == support'[..q][..m];
      LastPresentReadsPrefix(support, support', m);
    }
    forall j | 0 <= j < q
      ensures support'[j] == support[j]
    {
      assert support[j] == support[..q][j];
      assert support'[j] == support'[..q][j];
    }
    if v' < q {
      assert false;
    }
    match FirstError(support, v)
    case None =>
      assert q == v;
      if v' > v {
        assert false;
      }
      assert v' == v;
    case Some(j) =>
      assert FirstError(support', v') == Some(j);
  }

  /** With no query error, the scan succeeds, and its result is complete
      exactly when some family is graphics-capable and some family can
      present. */
  lemma ScanCompleteIff(families: seq<QueueFamilyProperties>, support: seq<SupportAnswer>)
    requires WellFormed(families, support)
    requires forall j :: 0 <= j < |support| ==> support[j].Success?
    ensures ScanOutcome(families, support).Success?
    ensures ScanOutcome(families, support).value.IsCompleted() <==>
              (exists g :: 0 <= g < |families| && SupportsGraphics(families[g]))
              && (exists p :: 0 <= p < |support| && Presents(support, p))
  {
    var v := VisitedCount(families, support);
    assert FirstError(support, v).None?;
    if (exists g :: 0 <= g < |families| && SupportsGraphics(families[g]))
       && (exists p :: 0 <= p < |support| && Presents(support, p)) {
      if v == |families| {
        assert LastGraphics(families, v).Some?;
        assert LastPresent(support, v).Some?;
      }
    }
  }

  /** A query error is reported exactly when it falls among the visited
      families, and the reported error is the first one; the scan has then
      queried every family up to and including the failing one. */
  lemma ScanFailsOnVisitedError(families: seq<QueueFamilyProperties>, support: seq<SupportAnswer>)
    requires WellFormed(families, support)
    ensures ScanOutcome(families, support).Failure? <==>
              exists j :: 0 <= j < VisitedCount(families, support) && support[j].Failure?
    ensures ScanOutcome(families, support).Failure? ==>
              && QueriedCount(families, support) >= 1
              && support[QueriedCount(families, support) - 1] == Failure(ScanOutcome(families, support).error)
              && forall j :: 0 <= j < QueriedCount(families, support) - 1 ==> support[j].Success?
  {
  }

  /** A table without any graphics-capable family, and no query error, still
      yields a success whose `graphics` is unresolved (the caller's `unwrap`
      is where this fails). */
  lemma NoGraphicsFamilyStillSucceeds(families: seq<QueueFamilyProperties>, support: seq<SupportAnswer>)
    requires WellFormed(families, support)
    requires forall j :: 0 <= j < |support| ==> support[j].Success?
    requires forall j :: 0 <= j < |families| ==> !SupportsGraphics(families[j])
    ensures ScanOutcome(families, support).Success?
    ensures ScanOutcome(families, support).value.graphics.None?
    ensures !ScanOutcome(families, support).value.IsCompleted()
  {
    ScanCompleteIff(families, support);
  }

  /** Two graphics families where only the second can present: the scan
      records family 1 for both roles, not the first graphics family 0. */
  lemma LaterGraphicsFamilyWins()
    ensures var gfx := QueueFamilyProperties(QUEUE_GRAPHICS_BIT, 1);
            ScanOutcome([gfx, gfx], [Success(false), Success(true)])
              == Success(QueueFamilyIndices(Some(1), Some(1)))
  {
    var gfx := QueueFamilyProperties(QUEUE_GRAPHICS_BIT, 1);
    var families, support := [gfx, gfx], [Success(false), Success(true)];
    assert SupportsGraphics(gfx);
    assert !StateAfter(families, support, 1).IsCompleted();
    assert StateAfter(families, support, 2).IsCompleted();
    assert VisitedCount(families, support) == 2;
  }
}
