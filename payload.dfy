/**
 * Encoded media: the fragments the encoder delivers and the payload
 * (`new Blob(recordedChunks)`) assembled from them.
 */
module Payload {

  newtype Byte = b: int | 0 <= b < 256

  type Fragment = seq<Byte>

  /**
   * The bytes of the fragments, one after the other, in arrival order
   * (`new Blob(fragments)`); the payload is exactly as long as the fragments
   * together (`blob.size`).
   */
  function Concat(fragments: seq<Fragment>): (payload: seq<Byte>)
    ensures |payload| == TotalSize(fragments)
  {
    if fragments == [] then [] else fragments[0] + Concat(fragments[1..])
  }

  /** The sum of the fragment sizes: zero exactly when every fragment is empty. */
  function TotalSize(fragments: seq<Fragment>): (n: nat)
    ensures n == 0 <==> forall i :: 0 <= i < |fragments| ==> |fragments[i]| == 0
  {
    if fragments == [] then 0
    else
      assert forall i :: 0 < i < |fragments| ==> fragments[i] == fragments[1..][i - 1];
      |fragments[0]| + TotalSize(fragments[1..])
  }

  /** Every fragment holds at least one byte. */
  ghost predicate AllNonEmpty(fragments: seq<Fragment>)
  {
    forall i :: 0 <= i < |fragments| ==> |fragments[i]| > 0
  }

  /** Appending a fragment appends its bytes at the end of the payload. */
  lemma {:induction false} ConcatAppend(fragments: seq<Fragment>, f: Fragment)
    ensures Concat(fragments + [f]) == Concat(fragments) + f
  {
    if fragments == [] {
      assert [f][1..] == [];
    } else {
      assert (fragments + [f])[1..] == fragments[1..] + [f];
      ConcatAppend(fragments[1..], f);
    }
  }

  /** The payload of a buffer is the payload of any prefix followed by the payload of the rest. */
  lemma {:induction false} ConcatSplit(fragments: seq<Fragment>, k: nat)
    requires k <= |fragments|
    ensures Concat(fragments) == Concat(fragments[..k]) + Concat(fragments[k..])
  {
    if k > 0 {
      assert fragments[..k][0] == fragments[0];
      assert fragments[..k][1..] == fragments[1..][..k - 1];
      assert fragments[k..] == fragments[1..][k - 1..];
      ConcatSplit(fragments[1..], k - 1);
    } else {
      assert fragments[..0] == [];
      assert fragments[0..] == fragments;
    }
  }

  /** A payload assembled from at least one non-empty fragment is not empty. */
  lemma {:induction false} NonEmptyPayload(fragments: seq<Fragment>)
    requires AllNonEmpty(fragments) && |fragments| > 0
    ensures |Concat(fragments)| >= |fragments[0]| > 0
  {
  }
}
