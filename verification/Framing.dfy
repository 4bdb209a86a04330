/** Log framing: the agent appends container logs to a status message after a separator,
    the gateway cuts them off again at the first separator it finds. */
module Framing {
  const SEP := "\n---LOGS---\n"

  predicate OccursAt(s: string, sep: string, i: int) {
    0 <= i <= |s| - |sep| && s[i..i + |sep|] == sep
  }

  /** i is where sep first occurs in s. */
  predicate FirstAt(s: string, sep: string, i: int) {
    OccursAt(s, sep, i) && forall j :: 0 <= j < i ==> !OccursAt(s, sep, j)
  }

  method FindSep(s: string, sep: string) returns (r: int)
    ensures r >= 0 ==> FirstAt(s, sep, r)
    ensures r < 0 ==> r == -1 && forall j :: !OccursAt(s, sep, j)
  {
    var i := 0;
    while i <= |s| - |sep|
      invariant 0 <= i
      invariant forall j :: 0 <= j < i ==> !OccursAt(s, sep, j)
    {
      if s[i..i + |sep|] == sep { return i; }
      i := i + 1;
    }
    return -1;
  }

  /** The cut: everything after the first separator, nothing when there is none or the
      message is no longer than the separator. */
  method ExtractLogs(msg: string) returns (logs: string)
    ensures |msg| > |SEP| && (exists i :: FirstAt(msg, SEP, i)) ==>
              exists i :: FirstAt(msg, SEP, i) && msg[..i] + SEP + logs == msg
    ensures |msg| <= |SEP| || (forall i :: !OccursAt(msg, SEP, i)) ==> logs == ""
  {
    if |msg| - |SEP| > 0 {
      var i := FindSep(msg, SEP);
      if i >= 0 {
        logs := msg[i + |SEP|..];
        assert FirstAt(msg, SEP, i) && msg[..i] + SEP + logs == msg;
        return;
      }
    }
    logs := "";
    assert |msg| > |SEP| ==> forall i :: !OccursAt(msg, SEP, i);
  }

  /** How the agent builds a message: no separator when there are no logs. */
  function Frame(m: string, logs: string): string {
    if logs == "" then m else m + SEP + logs
  }

  lemma FirstExists(s: string, sep: string, k: int)
    requires OccursAt(s, sep, k)
    ensures exists i :: 0 <= i <= k && FirstAt(s, sep, i)
    decreases k
  {
    if j :| 0 <= j < k && OccursAt(s, sep, j) { FirstExists(s, sep, j); }
    else { assert FirstAt(s, sep, k); }
  }

  /** The logs come back exactly when the separator the agent wrote is the first one, that is,
      when m followed by the separator does not contain it any earlier. */
  lemma RoundTrip(m: string, logs: string, i: int)
    requires FirstAt(m + SEP + logs, SEP, i)
    ensures (m + SEP + logs)[i + |SEP|..] == logs <==> FirstAt(m + SEP, SEP, |m|)
  {
    var head, msg := m + SEP, m + SEP + logs;
    assert OccursAt(msg, SEP, |m|);
    assert i <= |m|;
    forall j | 0 <= j <= |m| ensures OccursAt(head, SEP, j) == OccursAt(msg, SEP, j) {
      assert head[j..j + |SEP|] == msg[j..j + |SEP|];
    }
    if i == |m| {
      assert msg[i + |SEP|..] == logs;
    } else {
      assert |msg[i + |SEP|..]| > |logs|;
    }
  }

  /** Sending through the frame and cutting: for non-empty logs the method returns them if and
      only if the header keeps clear of the separator. */
  method SendAndExtract(m: string, logs: string) returns (got: string)
    requires logs != ""
    ensures got == logs <==> FirstAt(m + SEP, SEP, |m|)
  {
    var msg := Frame(m, logs);
    got := ExtractLogs(msg);
    assert OccursAt(msg, SEP, |m|);
    FirstExists(msg, SEP, |m|);
    ghost var i :| FirstAt(msg, SEP, i) && msg[..i] + SEP + got == msg;
    assert got == msg[i + |SEP|..];
    RoundTrip(m, logs, i);
  }

  /** The separator overlaps itself by one newline: this header does not contain it, yet its
      logs do not come back. */
  lemma OverlapLosesLogs()
    ensures var m := "\n---LOGS---"; (forall i :: !OccursAt(m, SEP, i)) && !FirstAt(m + SEP, SEP, |m|)
  {
    var m := "\n---LOGS---";
    assert OccursAt(m + SEP, SEP, 0);
  }

  /** A one-line header is always safe. */
  lemma PlainHeaderIsSafe(m: string)
    requires forall k :: 0 <= k < |m| ==> m[k] != '\n'
    ensures FirstAt(m + SEP, SEP, |m|)
  {
    forall j | 0 <= j < |m| ensures !OccursAt(m + SEP, SEP, j) {
      assert (m + SEP)[j..j + |SEP|][0] == m[j] && SEP[0] == '\n';
    }
    assert (m + SEP)[|m|..|m| + |SEP|] == SEP;
  }
}
