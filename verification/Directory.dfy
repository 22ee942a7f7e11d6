/** What the attribute names in an answer say about the server. */
module Directory {
  import opened Prelude
  import opened Model

  /** The message holds `name`, and no `other` before it. */
  ghost predicate NamesFirst(message: seq<string>, name: string, other: string) {
    exists j | 0 <= j < |message| :: message[j] == name && forall k | 0 <= k < j :: message[k] != other
  }

  ghost predicate Silent(message: seq<string>) { "isGlobalCatalogReady" !in message && "objectClass" !in message }

  /** Some message names `name` first, and none after it says anything. */
  ghost predicate LastWord(messages: seq<seq<string>>, name: string, other: string) {
    exists i | 0 <= i < |messages| ::
      NamesFirst(messages[i], name, other) && forall k | i < k < |messages| :: Silent(messages[k])
  }

  ghost predicate SaysActiveDirectory(messages: seq<seq<string>>) {
    LastWord(messages, "isGlobalCatalogReady", "objectClass")
  }

  ghost predicate SaysOpenLdap(messages: seq<seq<string>>) { LastWord(messages, "objectClass", "isGlobalCatalogReady") }

  lemma {:induction false} MessageSays(names: seq<string>)
    ensures RecogniseMessage(names) == Some(ActiveDirectory) <==> NamesFirst(names, "isGlobalCatalogReady", "objectClass")
    ensures RecogniseMessage(names) == Some(OpenLdap) <==> NamesFirst(names, "objectClass", "isGlobalCatalogReady")
    ensures RecogniseMessage(names) == None <==> Silent(names)
    decreases |names|
  {
    if names != [] {
      var rest := names[1..];
      MessageSays(rest);
      FirstOrLater(names, "isGlobalCatalogReady", "objectClass");
      FirstOrLater(names, "objectClass", "isGlobalCatalogReady");
      assert forall name :: name in names <==> name == names[0] || name in rest;
    }
  }

  lemma FirstOrLater(names: seq<string>, name: string, other: string)
    requires names != [] && name != other
    ensures NamesFirst(names, name, other) <==> names[0] == name || (names[0] != other && NamesFirst(names[1..], name, other))
  {
    if j :| 0 <= j < |names| && names[j] == name && forall k | 0 <= k < j :: names[k] != other {
      if j > 0 {
        assert names[1..][j - 1] == name && forall k | 0 <= k < j - 1 :: names[1..][k] != other;
      }
    }
    if j :| 0 <= j < |names| - 1 && names[1..][j] == name && forall k | 0 <= k < j :: names[1..][k] != other {
      if names[0] != other { assert names[j + 1] == name && forall k | 0 <= k < j + 1 :: names[k] != other; }
    }
  }

  ghost predicate AllSilent(messages: seq<seq<string>>) { forall i | 0 <= i < |messages| :: Silent(messages[i]) }

  lemma SilentMessage(message: seq<string>)
    requires Silent(message)
    ensures RecogniseMessage(message) == None
  {
    MessageSays(message);
  }

  lemma {:induction false} Detects(messages: seq<seq<string>>, i: nat, before: DirectoryType, found: DirectoryType)
    requires i < |messages| && RecogniseMessage(messages[i]) == Some(found)
    requires forall k | i < k < |messages| :: Silent(messages[k])
    ensures Recognise(messages, before) == found
    decreases |messages|
  {
    var n := |messages| - 1;
    if i < n {
      SilentMessage(messages[n]);
      Detects(messages[..n], i, before, found);
    }
  }

  lemma {:induction false} DetectsNothing(messages: seq<seq<string>>, before: DirectoryType)
    requires AllSilent(messages)
    ensures Recognise(messages, before) == before
    decreases |messages|
  {
    if messages != [] {
      var n := |messages| - 1;
      SilentMessage(messages[n]);
      DetectsNothing(messages[..n], before);
    }
  }

  lemma WhereSaid(messages: seq<seq<string>>, name: string, other: string) returns (i: nat)
    requires LastWord(messages, name, other)
    ensures i < |messages| && NamesFirst(messages[i], name, other) && forall k | i < k < |messages| :: Silent(messages[k])
  {
    i :| 0 <= i < |messages| && NamesFirst(messages[i], name, other) && forall k | i < k < |messages| :: Silent(messages[k]);
  }

  /** The last message with a telling attribute decides, by the one of the two that it names first. */
  lemma DetectedType(messages: seq<seq<string>>, before: DirectoryType)
    ensures SaysActiveDirectory(messages) ==> Recognise(messages, before) == ActiveDirectory
    ensures SaysOpenLdap(messages) ==> Recognise(messages, before) == OpenLdap
    ensures AllSilent(messages) ==> Recognise(messages, before) == before
  {
    if SaysActiveDirectory(messages) {
      var i := WhereSaid(messages, "isGlobalCatalogReady", "objectClass");
      MessageSays(messages[i]);
      Detects(messages, i, before, ActiveDirectory);
    }
    if SaysOpenLdap(messages) {
      var i := WhereSaid(messages, "objectClass", "isGlobalCatalogReady");
      MessageSays(messages[i]);
      Detects(messages, i, before, OpenLdap);
    }
    if AllSilent(messages) { DetectsNothing(messages, before); }
  }

  /** One of the three is always the case. */
  lemma {:induction false} SomethingIsSaid(messages: seq<seq<string>>)
    ensures SaysActiveDirectory(messages) || SaysOpenLdap(messages) || AllSilent(messages)
    decreases |messages|
  {
    if messages != [] {
      var n := |messages| - 1;
      if Silent(messages[n]) {
        SomethingIsSaid(messages[..n]);
        SilenceAdds(messages, "isGlobalCatalogReady", "objectClass");
        SilenceAdds(messages, "objectClass", "isGlobalCatalogReady");
        if AllSilent(messages[..n]) { AllSilentAdds(messages); }
      } else {
        SpeaksLast(messages);
      }
    }
  }

  lemma AllSilentAdds(messages: seq<seq<string>>)
    requires messages != [] && Silent(messages[|messages| - 1]) && AllSilent(messages[..|messages| - 1])
    ensures AllSilent(messages)
  {
    forall i | 0 <= i < |messages| ensures Silent(messages[i]) {
      if i < |messages| - 1 { assert messages[..|messages| - 1][i] == messages[i]; }
    }
  }

  lemma SpeaksLast(messages: seq<seq<string>>)
    requires messages != [] && !Silent(messages[|messages| - 1])
    ensures SaysActiveDirectory(messages) || SaysOpenLdap(messages)
  {
    MessageSays(messages[|messages| - 1]);
    RecogniseMessageValues(messages[|messages| - 1]);
  }

  lemma {:induction false} RecogniseMessageValues(names: seq<string>)
    ensures RecogniseMessage(names) in {None, Some(ActiveDirectory), Some(OpenLdap)}
    decreases |names|
  {
    if names != [] { RecogniseMessageValues(names[1..]); }
  }

  lemma SilenceAdds(messages: seq<seq<string>>, name: string, other: string)
    requires messages != [] && Silent(messages[|messages| - 1])
    ensures LastWord(messages[..|messages| - 1], name, other) ==> LastWord(messages, name, other)
  {
    var n := |messages| - 1;
    if i :| 0 <= i < n && NamesFirst(messages[..n][i], name, other) && forall k | i < k < n :: Silent(messages[..n][k]) {
      assert forall k | i <= k < n :: messages[k] == messages[..n][k];
    }
  }
}
