/** Prompts, by their lengths alone. */
module Prompts {
  import opened Events
  import opened Clusters

  /** How many characters one token is assumed to cover. */
  const CHARS_PER_TOKEN := 2

  /** The estimate for text of n bytes, rounded up. */
  function Tokens(n: nat): nat {
    (n + CHARS_PER_TOKEN - 1) / CHARS_PER_TOKEN
  }

  /** The fewest tokens that cover the text, two characters to each. */
  lemma TokensCover(n: nat, t: nat)
    ensures Tokens(n) <= t <==> n <= 2 * t
  {
  }

  lemma TokensMonotone(a: nat, b: nat)
    requires a <= b
    ensures Tokens(a) <= Tokens(b)
  {
  }

  /**
   * The lengths of the text a pass wraps around what it knows. All of them are arbitrary:
   * what is proved holds for any wording, rules and instruction.
   */
  datatype Wording = Wording(
    /** The clustering, omission and dispute system prompts, rules and instruction included. */
    clusterSystem: nat,
    omissionSystem: nat,
    disputeSystem: nat,
    /** What an omission round adds: the clusters so far, their numbers, and what is missing. */
    omission: (seq<ClusterResult>, seq<seq<int>>, seq<int>) -> nat,
    /** The dispute prompt's heading, and a dispute's block beyond its number: event, claimants. */
    disputeHeading: nat,
    dispute: (seq<ClusterResult>, Event, seq<int>) -> nat,
    /** The fixed text around a quoted refusal, in each of the three re-asks. */
    clusterRefusal: nat,
    omissionRefusal: nat,
    disputeRefusal: nat)

  /** The decimal digits of n. */
  function Digits(n: nat): (d: nat)
    ensures d >= 1
  {
    if n < 10 then 1 else 1 + Digits(n / 10)
  }
}
