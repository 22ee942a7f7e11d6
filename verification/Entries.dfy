/** The NULL-terminated array of entries that a search callback receives. */
module Entries {
  import opened Prelude

  const INITIAL_ARRAY_SIZE := 256

  /** What a reader that stops at NULL sees. */
  function UpToNull(entries: seq<Option<int>>): seq<int> {
    if entries == [] || entries[0].None? then [] else [entries[0].value] + UpToNull(entries[1..])
  }

  lemma {:induction false} ReadsChain(entries: seq<Option<int>>, chain: seq<int>)
    requires |chain| < |entries| && entries[|chain|] == None
    requires forall i | 0 <= i < |chain| :: entries[i] == Some(chain[i])
    ensures UpToNull(entries) == chain
    decreases |chain|
  {
    if chain != [] {
      assert entries[0] == Some(chain[0]);
      ReadsChain(entries[1..], chain[1..]);
    }
  }

  /** One entry per message of the chain, in order, then NULL.  The array doubles whenever the entry
      about to be written would leave no room for the terminator. */
  method Collect(chain: seq<int>) returns (entries: array<Option<int>>)
    ensures fresh(entries) && |chain| < entries.Length
    ensures forall i | 0 <= i < |chain| :: entries[i] == Some(chain[i])
    ensures entries[|chain|] == None && UpToNull(entries[..]) == chain
    ensures entries.Length <= INITIAL_ARRAY_SIZE || entries.Length <= 2 * (|chain| + 1)
  {
    entries := new Option<int>[INITIAL_ARRAY_SIZE];
    var message := 0;
    while message < |chain|
      invariant 0 <= message <= |chain| && fresh(entries)
      invariant message + 1 < entries.Length
      invariant forall i | 0 <= i < message :: entries[..][i] == Some(chain[i])
      invariant entries.Length <= INITIAL_ARRAY_SIZE || entries.Length <= 2 * (message + 1)
    {
      if message + 2 >= entries.Length {
        var grown := new Option<int>[entries.Length * 2];
        ghost var written := entries[..];
        for i := 0 to entries.Length
          invariant entries[..] == written
          invariant forall k | 0 <= k < i :: grown[k] == entries[k]
        {
          grown[i] := entries[i];
        }
        entries := grown;
      }
      entries[message] := Some(chain[message]);
      message := message + 1;
    }
    entries[message] := None;
    ReadsChain(entries[..], chain);
  }
}
