/**
 * The wait for the particle engine's container: one lookup, then up to 20
 * rounds of "sleep 100 ms, look again". The engine is external, so its answers
 * are an oracle: `available[k]` is whether lookup number `k` (counting from 0)
 * finds the container; lookups beyond the end of the sequence find nothing.
 */
module ContainerPoll {

  /** The most sleeps the loop makes (about two seconds at 100 ms each). */
  const MaxWaits: nat := 20

  /** The sleep between lookups, in milliseconds. */
  const WaitMillis: nat := 100

  /** Whether lookup `k` finds the container. */
  predicate Answer(available: seq<bool>, k: nat) {
    k < |available| && available[k]
  }

  /** Some lookup among the first `MaxWaits + 1` finds the container. */
  predicate FoundWithin(available: seq<bool>) {
    exists k :: 0 <= k <= MaxWaits && Answer(available, k)
  }

  /**
   * The retry loop. `waits` is the loop's `attempts` counter; `lookups`
   * counts calls of the lookup helper. The container is found exactly when one
   * of the first 21 lookups finds it, and then at the first such lookup; when
   * none does, the loop gives up after exactly 20 waits.
   */
  method PollContainer(available: seq<bool>) returns (found: bool, waits: nat, ghost lookups: nat)
    ensures waits <= MaxWaits && lookups == waits + 1 && lookups <= MaxWaits + 1
    ensures found ==> Answer(available, waits)
    ensures forall k :: 0 <= k < waits ==> !Answer(available, k)
    ensures !found ==> waits == MaxWaits && !Answer(available, MaxWaits)
    ensures found == FoundWithin(available)
  {
    found := Answer(available, 0);
    lookups := 1;
    waits := 0;
    while !found && waits < MaxWaits
      invariant waits <= MaxWaits && lookups == waits + 1
      invariant found == Answer(available, waits)
      invariant forall k :: 0 <= k < waits ==> !Answer(available, k)
    {
      found := Answer(available, waits + 1);
      lookups := lookups + 1;
      waits := waits + 1;
    }
  }
}
