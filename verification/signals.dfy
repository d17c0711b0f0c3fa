/** Cancellation: `AbortSignal`s and their `AbortSignal.any` combination,
    which the client uses to tie every call to both its own lifetime signal
    and the caller's per-call signal. */
module Signals {
  import opened Wrappers

  /** A signal is either a source, owned by the `AbortController` numbered
      `controller`, or `AbortSignal.any(sources)`. */
  datatype Signal = Source(controller: nat, aborted: bool) | AnyOf(sources: seq<Signal>)

  /** An `any` signal is aborted as soon as one of its sources is. */
  predicate Aborted(s: Signal)
    decreases s
  {
    match s
    case Source(_, aborted) => aborted
    case AnyOf(sources) => exists i :: 0 <= i < |sources| && Aborted(sources[i])
  }

  /** The signal follows the given controller, directly or through `any`. */
  predicate Follows(s: Signal, controller: nat)
    decreases s
  {
    match s
    case Source(c, _) => c == controller
    case AnyOf(sources) => exists i :: 0 <= i < |sources| && Follows(sources[i], controller)
  }

  /** The state of `s` after `controller.abort()`: every source it owns is
      aborted, and nothing else changes. */
  function AbortController(s: Signal, controller: nat): (r: Signal)
    ensures Aborted(r) <==> Aborted(s) || Follows(s, controller)
    ensures forall c :: Follows(r, c) <==> Follows(s, c)
    decreases s
  {
    match s
    case Source(c, aborted) => Source(c, aborted || c == controller)
    case AnyOf(sources) =>
      var updated := seq(|sources|, i requires 0 <= i < |sources| => AbortController(sources[i], controller));
      assert forall i :: 0 <= i < |sources| ==> updated[i] == AbortController(sources[i], controller);
      assert forall c, i :: 0 <= i < |sources| ==> (Follows(updated[i], c) <==> Follows(sources[i], c));
      AnyOf(updated)
  }

  /** The signal a client call hands to `fetch`: the client's own signal when
      the caller gives none, and otherwise `AbortSignal.any([own, caller])`. */
  function Merge(own: Signal, caller: Option<Signal>): (r: Signal)
    ensures Aborted(r) <==> Aborted(own) || (caller.Some? && Aborted(caller.value))
    ensures forall c :: Follows(r, c) <==> Follows(own, c) || (caller.Some? && Follows(caller.value, c))
    ensures caller.None? ==> r == own
  {
    match caller
    case None => own
    case Some(c) =>
      assert [own, c][0] == own && [own, c][1] == c;
      AnyOf([own, c])
  }

  /** Aborting the controller behind either signal aborts the merged signal. */
  lemma AbortingEitherAbortsMerged(own: Signal, caller: Option<Signal>, controller: nat)
    requires Follows(own, controller) || (caller.Some? && Follows(caller.value, controller))
    ensures Aborted(AbortController(Merge(own, caller), controller))
  {
    if caller.Some? {
      var m := Merge(own, caller);
      assert m.sources[0] == own && m.sources[1] == caller.value;
    }
  }
}
