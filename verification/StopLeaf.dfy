/**
 The leaf stop-running of a suppression (src/data.c): its value and the flag that it is set.  The
 runner asks for the flag only.
 */
module StopLeaf {
  datatype Leaf = Leaf(value: bool, isSet: bool)

  const ABSENT := Leaf(false, false)

  /** The words that set_boolean knows. */
  predicate Accepted(word: string) { word == "true" || word == "false" }

  /** lmap_supp_set_stop_running */
  function SetStop(l: Leaf, word: string): Leaf { if Accepted(word) then Leaf(word == "true", true) else l }

  function SetAll(words: seq<string>): Leaf {
    if words == [] then ABSENT else SetStop(SetAll(words[..|words| - 1]), words[|words| - 1])
  }

  /** What suppression_start tests. */
  predicate Stops(l: Leaf) { l.isSet }

  /** The last word of a list that was accepted. */
  ghost predicate LastAccepted(words: seq<string>, k: nat) {
    && k < |words| && (words[k] == "true" || words[k] == "false")
    && forall n :: k < n < |words| ==> words[n] != "true" && words[n] != "false"
  }

  /** The suppression stops what is running exactly if some word was accepted, and the value is that of the last one. */
  lemma {:induction false} StopsExactly(words: seq<string>)
    ensures Stops(SetAll(words)) <==> exists k :: 0 <= k < |words| && (words[k] == "true" || words[k] == "false")
    ensures SetAll(words).value <==> exists k: nat :: LastAccepted(words, k) && words[k] == "true"
  {
    if words != [] {
      var n := |words| - 1;
      var prev := words[..n];
      StopsExactly(prev);
      assert words[n] == words[|words| - 1];
      if Accepted(words[n]) {
        assert LastAccepted(words, n);
        forall k: nat ensures LastAccepted(words, k) ==> k == n {}
      } else {
        SameLast(words);
        assert forall k :: 0 <= k < n ==> prev[k] == words[k];
      }
    }
  }

  /** A word that is not accepted changes nothing. */
  lemma SameLast(words: seq<string>)
    requires words != [] && !Accepted(words[|words| - 1])
    ensures forall k: nat :: LastAccepted(words, k) <==> LastAccepted(words[..|words| - 1], k)
    ensures forall k: nat :: LastAccepted(words, k) ==> words[k] == words[..|words| - 1][k]
  {
    var prev := words[..|words| - 1];
    assert forall k :: 0 <= k < |prev| ==> prev[k] == words[k];
  }

  /** It stops what is running although the value says no, exactly if the last accepted word is false. */
  lemma {:induction false} StopsAgainstValue(words: seq<string>)
    ensures Stops(SetAll(words)) && !SetAll(words).value <==>
            exists k: nat :: LastAccepted(words, k) && words[k] == "false"
  {
    StopsExactly(words);
    forall k: nat, l: nat | LastAccepted(words, k) && LastAccepted(words, l) ensures k == l {}
    if k :| 0 <= k < |words| && Accepted(words[k]) {
      var l := LastOf(words, k);
      assert words[l] == "true" || words[l] == "false";
    }
  }

  lemma LastOf(words: seq<string>, k: nat) returns (l: nat)
    requires k < |words| && Accepted(words[k])
    ensures LastAccepted(words, l)
  {
    l := k;
    for n := k + 1 to |words|
      invariant l < n && Accepted(words[l]) && forall m :: l < m < n ==> !Accepted(words[m])
    {
      if Accepted(words[n]) { l := n; }
    }
  }

  class Supp {
    var stopRunning: bool
    var stopRunningSet: bool

    function View(): Leaf
      reads this
    {
      Leaf(stopRunning, stopRunningSet)
    }

    constructor ()
      ensures View() == ABSENT
    {
      stopRunning, stopRunningSet := false, false;
    }

    /** set_boolean, and the flag when it succeeds. */
    method SetStopRunning(word: string) returns (ok: bool)
      modifies this
      ensures ok <==> word == "true" || word == "false"
      ensures View() == SetStop(old(View()), word)
      ensures stopRunning == (if ok then word == "true" else old(stopRunning))
      ensures stopRunningSet == (ok || old(stopRunningSet))
    {
      if word == "true" {
        stopRunning := true;
      } else if word == "false" {
        stopRunning := false;
      } else {
        return false;
      }
      stopRunningSet := true;
      ok := true;
    }
  }
}
