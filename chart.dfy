/**
 * `USBVersionChart` in `ui.py`: a row of speed-tier nodes of which the current link speed
 * lights at most one.
 */
module Chart {
  import opened Wrappers
  import opened Text

  /** The node keys, slowest first: the Mbps rate each tier stands for, as text. */
  const TierKeys: seq<string> := ["480", "5000", "10000", "20000", "40000", "80000"]

  /** The rate each tier key stands for, in the same order. */
  const TierRates: seq<int> := [480, 5000, 10000, 20000, 40000, 80000]

  /** The fallback for a non-standard integer reading: the highest tier not above it, 480 below 5000. */
  function BucketTier(v: int): (k: string)
    ensures k in TierKeys
  {
    if v < 5000 then "480"
    else if v < 10000 then "5000"
    else if v < 20000 then "10000"
    else if v < 40000 then "20000"
    else if v < 80000 then "40000"
    else "80000"
  }

  /**
   * The node `set_active_speed` lights for a raw speed: none for "" or "N/A", the node of that
   * exact key, else the bucket of the integer reading, and none when `int()` rejects the text.
   */
  function ChooseTier(s: string): (r: Option<string>)
    ensures r.Some? ==> r.value in TierKeys
  {
    if s == "" || s == "N/A" then None
    else if s in TierKeys then Some(s)
    else
      match ParseInt(s)
      case None => None
      case Some(v) => Some(BucketTier(v))
  }

  /** The set of lit nodes for a choice: one node or none. */
  function Lit(choice: Option<string>): (active: set<string>)
    ensures |active| <= 1
    ensures forall k :: k in active <==> choice == Some(k)
  {
    match choice
    case None => {}
    case Some(k) => {k}
  }

  /** No node is lit exactly for empty, "N/A" and non-numeric text that is not a key. */
  lemma ChooseTierNoneIff(s: string)
    ensures ChooseTier(s).None? <==> s == "" || s == "N/A" || (s !in TierKeys && ParseInt(s).None?)
  {
  }

  /** An exact key lights its own node. */
  lemma ChooseTierExactKey(s: string)
    requires s in TierKeys
    ensures ChooseTier(s) == Some(s)
  {
  }

  /**
   * The bucket is the nearest tier below the reading: its rate is at most the reading
   * (except the lowest tier), and the next tier's rate is above it.
   */
  lemma BucketIsNearestLower(v: int, i: int)
    requires 0 <= i < |TierKeys| && TierKeys[i] == BucketTier(v)
    ensures i == 0 || TierRates[i] <= v
    ensures i + 1 < |TierKeys| ==> v < TierRates[i + 1]
  {
  }

  /** A faster reading never lights a slower node. */
  lemma BucketMonotone(v: int, w: int, i: int, j: int)
    requires v <= w
    requires 0 <= i < |TierKeys| && TierKeys[i] == BucketTier(v)
    requires 0 <= j < |TierKeys| && TierKeys[j] == BucketTier(w)
    ensures i <= j
  {
  }

  // The next three lemmas only work out the decimal texts of the six tier rates, for
  // `ExactKeyAgreesWithBucket`; they state no property of the chart themselves.

  /** Appending a zero digit to a number's text multiplies it by ten. */
  lemma NatToStringTimesTen(n: nat)
    requires n >= 1
    ensures NatToString(n * 10) == NatToString(n) + "0"
  {
    assert (n * 10) / 10 == n && (n * 10) % 10 == 0;
  }

  /** The decimal text of each of the six rates. */
  lemma RateTexts()
    ensures IntToString(480) == "480" && IntToString(5000) == "5000" && IntToString(10000) == "10000"
    ensures IntToString(20000) == "20000" && IntToString(40000) == "40000" && IntToString(80000) == "80000"
  {
    assert NatToString(48) == "48";
    NatToStringTimesTen(48);
    NatToStringTimesTen(5);
    NatToStringTimesTen(50);
    NatToStringTimesTen(500);
    NatToStringTimesTen(1);
    NatToStringTimesTen(10);
    NatToStringTimesTen(100);
    NatToStringTimesTen(1000);
    NatToStringTimesTen(2);
    NatToStringTimesTen(20);
    NatToStringTimesTen(200);
    NatToStringTimesTen(2000);
    NatToStringTimesTen(4);
    NatToStringTimesTen(40);
    NatToStringTimesTen(400);
    NatToStringTimesTen(4000);
    NatToStringTimesTen(8);
    NatToStringTimesTen(80);
    NatToStringTimesTen(800);
    NatToStringTimesTen(8000);
  }

  /**
   * The exact-key shortcut agrees with the fallback: the text of each tier rate is a key, it
   * parses back to that rate, and the rate buckets to that same key.
   */
  lemma ExactKeyAgreesWithBucket(v: int)
    requires v in TierRates
    ensures IntToString(v) in TierKeys
    ensures ParseInt(IntToString(v)) == Some(v)
    ensures BucketTier(v) == IntToString(v)
  {
    RateIsKey(v);
    ParseIntOfIntToString(v);
  }

  /** The text of each tier rate is a key, and the rate buckets to it. */
  lemma RateIsKey(v: int)
    requires v in TierRates
    ensures IntToString(v) in TierKeys
    ensures BucketTier(v) == IntToString(v)
  {
    RateTexts();
  }

  /** The chart: the set of node keys currently styled "active". */
  class UsbVersionChart {
    var active: set<string>

    ghost predicate Valid()
      reads this
    {
      forall k :: k in active ==> k in TierKeys
    }

    constructor ()
      ensures Valid() && active == {}
    {
      active := {};
    }

    /** `set_active_speed`: clear every node, then light the chosen one, if any. */
    method SetActiveSpeed(s: string)
      requires Valid()
      modifies this
      ensures Valid()
      ensures active == Lit(ChooseTier(s))
      ensures |active| <= 1
    {
      for i := 0 to |TierKeys|
        invariant active == old(active) - (set j | 0 <= j < i :: TierKeys[j])
      {
        active := active - {TierKeys[i]};
      }
      assert active == {} by {
        forall k | k in old(active) ensures k in (set j | 0 <= j < |TierKeys| :: TierKeys[j]) {
          var j :| 0 <= j < |TierKeys| && TierKeys[j] == k;
        }
      }
      var tier := ChooseTier(s);
      if tier.Some? {
        active := active + {tier.value};
      }
    }
  }
}
