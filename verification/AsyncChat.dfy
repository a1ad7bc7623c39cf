/** How asynchat collects input piece by piece without ever missing a terminator that comes in two pieces. */
module AsyncChat {
  import opened Wrappers
  import opened PyStrings
  import opened SmtpState
  import opened SmtpLaws

  /** s and t are equal as far as both go. */
  predicate Agree(s: string, t: string) {
    if |s| < |t| then s == t[..|s|] else s[..|t|] == t
  }

  /** What was collected can no longer be the beginning of a terminator, whatever comes. */
  ghost predicate Past(collected: string, buffer: string, t: string) {
    forall p :: 0 <= p < |collected| ==> !Agree((collected + buffer)[p..], t)
  }

  lemma AgreeOnLonger(s: string, more: string, t: string)
    requires !Agree(s, t)
    ensures !Agree(s + more, t)
  {
    var n := if |s + more| < |t| then |s + more| else |t|;
    var m := if |s| < |t| then |s| else |t|;
    assert (s + more)[..n][..m] == s[..m] && t[..n][..m] == t[..m];
  }

  lemma MatchAgrees(s: string, t: string, p: nat)
    ensures MatchAt(s, t, p) <==> p + |t| <= |s| && Agree(s[p..], t)
  {
    if p + |t| <= |s| { assert s[p..][..|t|] == s[p..p + |t|]; }
  }

  lemma PastWithMore(collected: string, buffer: string, t: string, more: string)
    requires Past(collected, buffer, t)
    ensures Past(collected, buffer + more, t)
  {
    forall p | 0 <= p < |collected| ensures !Agree((collected + (buffer + more))[p..], t) {
      AgreeOnLonger((collected + buffer)[p..], more, t);
      assert (collected + (buffer + more))[p..] == (collected + buffer)[p..] + more;
    }
  }

  /** The first terminator in the buffer is the first of all. */
  lemma FindPast(collected: string, buffer: string, t: string)
    requires Past(collected, buffer, t) && t != ""
    ensures Find(buffer, t).Some? ==> Find(collected + buffer, t) == Some(|collected| + Find(buffer, t).value)
    ensures Find(buffer, t).None? ==> Find(collected + buffer, t) == None
  {
    var s := collected + buffer;
    FindFromIsFirst(buffer, t, 0);
    forall p | 0 <= p < |collected| ensures !MatchAt(s, t, p) {
      MatchAgrees(s, t, p);
    }
    forall p | |collected| <= p ensures MatchAt(s, t, p) <==> MatchAt(buffer, t, p - |collected|) {
      MatchLater(collected, buffer, t, p - |collected|);
    }
    if Find(buffer, t).Some? {
      FindIs(s, t, |collected| + Find(buffer, t).value);
    } else {
      FindIsNone(s, t);
    }
  }

  /** find_prefix_at_end: the longest proper prefix of t that s ends with. */
  ghost predicate IsPrefixAtEnd(s: string, t: string, n: nat) {
    && n < |t| && (n > 0 ==> EndsWith(s, t[..n]))
    && forall k :: n < k < |t| ==> !EndsWith(s, t[..k])
  }

  /** Collecting all but the longest prefix of a terminator gives nothing away. */
  lemma CollectingIsSafe(collected: string, buffer: string, t: string, n: nat)
    requires Past(collected, buffer, t) && Find(buffer, t) == None && IsPrefixAtEnd(buffer, t, n) && n <= |buffer|
    ensures Past(collected + buffer[..|buffer| - n], buffer[|buffer| - n..], t)
  {
    var taken, kept := buffer[..|buffer| - n], buffer[|buffer| - n..];
    assert (collected + taken) + kept == collected + buffer;
    forall p | 0 <= p < |collected + taken| ensures !Agree(((collected + taken) + kept)[p..], t) {
      if p >= |collected| {
        var q := p - |collected|;
        assert (collected + buffer)[p..] == buffer[q..];
        FindFromIsFirst(buffer, t, 0);
        MatchAgrees(buffer, t, q);
        if |buffer| - q < |t| {
          assert !EndsWith(buffer, t[..|buffer| - q]);
        }
      }
    }
  }
}
