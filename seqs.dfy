/** Generic facts about sequences of sequences. */
module Seqs {

  /** The blocks one after another. */
  function Flatten<T>(blocks: seq<seq<T>>): seq<T>
  {
    if blocks == [] then [] else blocks[0] + Flatten(blocks[1..])
  }

  /** Appending one more block to a prefix appends its contents. */
  lemma {:induction false} FlattenSnoc<T>(blocks: seq<seq<T>>, k: nat)
    requires k < |blocks|
    ensures Flatten(blocks[..k + 1]) == Flatten(blocks[..k]) + blocks[k]
  {
    if k > 0 {
      FlattenSnoc(blocks[1..], k - 1);
      assert blocks[..k + 1][1..] == blocks[1..][..k];
      assert blocks[..k][1..] == blocks[1..][..k - 1];
    } else {
      assert blocks[..1] == [blocks[0]];
    }
  }

  /** A suffix of blocks flattens to its first block followed by the rest. */
  lemma FlattenFrom<T>(blocks: seq<seq<T>>, k: nat)
    requires k < |blocks|
    ensures Flatten(blocks[k..]) == blocks[k] + Flatten(blocks[k + 1..])
  {
    assert blocks[k..][1..] == blocks[k + 1..];
  }
}
