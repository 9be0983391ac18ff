/** The newline rewrite of Session.Write on a session with a pty. */
module Newline {
  import opened Common

  const CR: Byte := 13
  const LF: Byte := 10

  /** bytes.Replace(s, pattern, replacement, -1): leftmost, non-overlapping. */
  function ReplaceAll(s: seq<Byte>, pattern: seq<Byte>, replacement: seq<Byte>): seq<Byte>
    requires pattern != []
    decreases |s|
  {
    if |s| < |pattern| then s
    else if s[..|pattern|] == pattern then replacement + ReplaceAll(s[|pattern|..], pattern, replacement)
    else [s[0]] + ReplaceAll(s[1..], pattern, replacement)
  }

  /** LF to CR LF. */
  function Expand(p: seq<Byte>): seq<Byte> { ReplaceAll(p, [LF], [CR, LF]) }

  /** CR CR LF to CR LF. */
  function Squeeze(p: seq<Byte>): seq<Byte> { ReplaceAll(p, [CR, CR, LF], [CR, LF]) }

  function Rewrite(p: seq<Byte>): seq<Byte> { Squeeze(Expand(p)) }

  /** One pass: a CR goes before each LF that does not already follow one. */
  function Cook(p: seq<Byte>, afterCR: bool): seq<Byte> {
    if p == [] then []
    else if p[0] == LF && !afterCR then [CR, LF] + Cook(p[1..], false)
    else [p[0]] + Cook(p[1..], p[0] == CR)
  }

  predicate EndsInCR(p: seq<Byte>, afterCR: bool) {
    if p == [] then afterCR else p[|p| - 1] == CR
  }

  predicate StartsWithLF(p: seq<Byte>) { p != [] && p[0] == LF }

  /** The LFs of p that do not follow a CR. */
  function BareLFs(p: seq<Byte>, afterCR: bool): nat {
    if p == [] then 0
    else (if p[0] == LF && !afterCR then 1 else 0) + BareLFs(p[1..], p[0] == CR)
  }

  ghost predicate EveryLFFollowsCR(p: seq<Byte>) {
    forall i :: 0 <= i < |p| && p[i] == 10 ==> i > 0 && p[i - 1] == 13
  }

  lemma ExpandStep(p: seq<Byte>)
    requires p != []
    ensures Expand(p) == (if p[0] == LF then [CR, LF] else [p[0]]) + Expand(p[1..])
    ensures Expand(p)[0] != LF
  {
  }

  lemma RewriteEmpty()
    ensures Expand([]) == [] && Squeeze([]) == []
  {
  }

  lemma SqueezeMatch(q: seq<Byte>)
    ensures Squeeze([CR, CR, LF] + q) == [CR, LF] + Squeeze(q)
  {
  }

  lemma SqueezeSkip(x: Byte, q: seq<Byte>)
    requires !(|q| >= 2 && x == CR && q[0] == CR && q[1] == LF)
    ensures Squeeze([x] + q) == [x] + Squeeze(q)
  {
  }

  /** The two replacements are the one-pass function, on every byte string. */
  lemma {:induction false} RewriteIsCook(p: seq<Byte>)
    ensures Rewrite(p) == Cook(p, false)
    decreases |p|
  {
    hide Expand, Squeeze;
    RewriteEmpty();
    if p != [] {
      ExpandStep(p);
      var rest := p[1..];
      if p[0] == LF {
        RewriteIsCook(rest);
        SqueezeSkip(LF, Expand(rest));
        SqueezeSkip(CR, [LF] + Expand(rest));
        assert Expand(p) == [CR] + ([LF] + Expand(rest));
      } else if p[0] == CR && StartsWithLF(rest) {
        ExpandStep(rest);
        RewriteIsCook(rest[1..]);
        SqueezeMatch(Expand(rest[1..]));
        assert Expand(p) == [CR, CR, LF] + Expand(rest[1..]);
        assert Cook(p, false) == [CR] + Cook(rest, true);
      } else {
        RewriteIsCook(rest);
        if rest != [] {
          ExpandStep(rest);
          if rest[1..] != [] {
            ExpandStep(rest[1..]);
          }
        }
        SqueezeSkip(p[0], Expand(rest));
        CookEntry(rest, p[0] == CR);
      }
    }
  }

  /** Where the pass starts only matters to a leading LF. */
  lemma CookEntry(p: seq<Byte>, afterCR: bool)
    ensures !StartsWithLF(p) ==> Cook(p, afterCR) == Cook(p, false)
    ensures StartsWithLF(p) ==> Cook(p, false) == [CR] + Cook(p, true)
  {
  }

  lemma {:induction false} CookConcat(p: seq<Byte>, q: seq<Byte>, afterCR: bool)
    ensures Cook(p + q, afterCR) == Cook(p, afterCR) + Cook(q, EndsInCR(p, afterCR))
  {
    if p == [] {
      assert p + q == q;
    } else {
      assert (p + q)[1..] == p[1..] + q;
      CookConcat(p[1..], q, p[0] == CR);
    }
  }

  lemma {:induction false} CookOutput(p: seq<Byte>, afterCR: bool)
    ensures |Cook(p, afterCR)| == |p| + BareLFs(p, afterCR)
    ensures Cook(Cook(p, afterCR), afterCR) == Cook(p, afterCR)
    ensures !afterCR ==> EveryLFFollowsCR(Cook(p, afterCR))
    ensures EveryLFFollowsCR([CR] + Cook(p, afterCR))
  {
    if p != [] {
      var bare := p[0] == LF && !afterCR;
      var rest := Cook(p[1..], !bare && p[0] == CR);
      CookOutput(p[1..], !bare && p[0] == CR);
      var out := Cook(p, afterCR);
      assert out == (if bare then [CR, LF] else [p[0]]) + rest;
      assert bare ==> out[1..] == [LF] + rest && out[1..][1..] == rest;
      assert !bare ==> out[1..] == rest;
    }
  }

  /** Idempotent; every LF of the output follows a CR; never shorter than the input. */
  lemma RewriteNormalises(p: seq<Byte>)
    ensures Rewrite(Rewrite(p)) == Rewrite(p)
    ensures EveryLFFollowsCR(Rewrite(p))
    ensures |Rewrite(p)| == |p| + BareLFs(p, false)
  {
    RewriteIsCook(p);
    RewriteIsCook(Rewrite(p));
    CookOutput(p, false);
  }

  /** The rewrite changes nothing exactly when every LF already follows a CR. */
  lemma {:induction false} RewriteFixedPoints(p: seq<Byte>)
    ensures Rewrite(p) == p <==> EveryLFFollowsCR(p)
  {
    RewriteNormalises(p);
    if EveryLFFollowsCR(p) {
      NoBareLFs(p, false);
      CookWithoutBareLFs(p, false);
      RewriteIsCook(p);
    }
  }

  lemma {:induction false} NoBareLFs(p: seq<Byte>, afterCR: bool)
    requires StartsWithLF(p) ==> afterCR
    requires forall i :: 0 < i < |p| && p[i] == LF ==> p[i - 1] == CR
    ensures BareLFs(p, afterCR) == 0
  {
    if p != [] {
      NoBareLFs(p[1..], p[0] == CR);
    }
  }

  lemma {:induction false} CookWithoutBareLFs(p: seq<Byte>, afterCR: bool)
    requires BareLFs(p, afterCR) == 0
    ensures Cook(p, afterCR) == p
  {
    if p != [] {
      CookWithoutBareLFs(p[1..], p[0] == CR);
    }
  }

  /** Two writes put the same bytes on the wire as one, except when they split a CR LF. */
  lemma RewriteSplits(p: seq<Byte>, q: seq<Byte>)
    ensures Rewrite(p + q) == Rewrite(p) + Rewrite(q) <==> !(EndsInCR(p, false) && StartsWithLF(q))
  {
    RewriteIsCook(p);
    RewriteIsCook(q);
    RewriteIsCook(p + q);
    CookConcat(p, q, false);
    CookEntry(q, EndsInCR(p, false));
  }

  /** k is the number of bytes of p whose whole rewriting is among the first `accept` bytes of the rewriting of p. */
  ghost predicate Covers(p: seq<Byte>, accept: nat, k: nat)
    requires accept <= |Rewrite(p)|
  {
    && k <= |p| && Rewrite(p[..k]) <= Rewrite(p)[..accept]
    && forall j :: k < j <= |p| ==> !(Rewrite(p[..j]) <= Rewrite(p)[..accept])
  }

  /** The rewriting of a prefix is a prefix of the rewriting, so only its length matters. */
  lemma PrefixCovered(p: seq<Byte>, accept: nat, k: nat)
    requires accept <= |Rewrite(p)| && k <= |p|
    ensures Rewrite(p[..k]) <= Rewrite(p)[..accept] <==> k + BareLFs(p[..k], false) <= accept
  {
    hide Rewrite;
    assert p == p[..k] + p[k..];
    RewriteIsCook(p);
    RewriteIsCook(p[..k]);
    CookConcat(p[..k], p[k..], false);
    RewriteNormalises(p[..k]);
  }

  /**
   When the channel takes only part of the rewriting, the count that Write reports is the
   number of input bytes that got through if and only if everything did, or no LF among
   the bytes counted needed a CR.
   */
  lemma CountIsExactIff(p: seq<Byte>, accept: nat)
    requires accept <= |Rewrite(p)|
    ensures var n := if accept > |p| then |p| else accept;
      Covers(p, accept, n) <==> accept == |Rewrite(p)| || BareLFs(p[..n], false) == 0
  {
    hide Rewrite, BareLFs;
    var n := if accept > |p| then |p| else accept;
    assert p[..|p|] == p;
    RewriteNormalises(p);
    forall j | 0 <= j <= |p|
      ensures Rewrite(p[..j]) <= Rewrite(p)[..accept] <==> j + BareLFs(p[..j], false) <= accept
    {
      PrefixCovered(p, accept, j);
    }
  }

  /** Two LFs of which the channel takes CR LF: one byte got through, and the count says both did. */
  lemma CountCanOverstate()
    ensures Rewrite([LF, LF]) == [CR, LF, CR, LF] && Covers([LF, LF], 2, 1) && !Covers([LF, LF], 2, 2)
  {
    var p := [LF, LF];
    RewriteIsCook(p);
    assert Cook([LF], false) == [CR, LF] && p[1..] == [LF] && p[..1] == [LF] && p[..2] == p;
    RewriteIsCook([LF]);
    assert Rewrite(p)[..2] == [CR, LF];
  }

  /**
   Session.Write. `accept` is how many bytes the channel takes of what it is given
   (at most all of it), `failed` whether it reports an error.
   */
  method Write(p: seq<Byte>, hasPty: bool, accept: nat, failed: bool)
    returns (sent: seq<Byte>, n: nat, err: bool)
    ensures sent == if hasPty then Rewrite(p) else p
    ensures accept <= |sent| ==> n <= |p|
    ensures accept == |sent| ==> n == |p|
    ensures accept <= |sent| && (accept < |sent| ==> failed) && n < |p| ==> err
    ensures n == (if hasPty && accept > |p| then |p| else accept) && err == failed
    ensures hasPty && accept <= |sent| ==>
              (Covers(p, accept, n) <==> accept == |sent| || BareLFs(p[..n], false) == 0)
  {
    if hasPty {
      var m := |p|;
      sent := ReplaceAll(p, [LF], [CR, LF]);
      sent := ReplaceAll(sent, [CR, CR, LF], [CR, LF]);
      RewriteNormalises(p);
      if accept <= |sent| {
        CountIsExactIff(p, accept);
      }
      n, err := accept, failed;
      if n > m {
        n := m;
      }
      return;
    }
    sent := p;
    n, err := accept, failed;
  }
}
