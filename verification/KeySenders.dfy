/** Several senders on one guest keyboard. The guest hears one stream of codes; only some of them
    come from the translator. */
module KeySenders {
  import opened Keys

  /** A code as the guest gets it; `own` if it was sent for the host's keys and modifiers. */
  datatype Sent = Sent(own: bool, code: nat)

  function AllCodes(s: seq<Sent>): seq<nat> {
    if s == [] then [] else AllCodes(s[..|s| - 1]) + [s[|s| - 1].code]
  }

  function OwnCodes(s: seq<Sent>): seq<nat> {
    if s == [] then []
    else OwnCodes(s[..|s| - 1]) + (if s[|s| - 1].own then [s[|s| - 1].code] else [])
  }

  /** Positions whose last code came from another sender, as a release or as a press. */
  datatype Standing = Standing(up: set<nat>, down: set<nat>)

  function StandingAfter(s: seq<Sent>): Standing {
    if s == [] then Standing({}, {})
    else
      var before, last := StandingAfter(s[..|s| - 1]), s[|s| - 1];
      var p := Position(last.code);
      if last.own then Standing(before.up - {p}, before.down - {p})
      else if IsBreak(last.code) then Standing(before.up + {p}, before.down - {p})
      else Standing(before.up - {p}, before.down + {p})
  }

  /** Whether the last code for position `p` is another sender's release, or press. */
  ghost predicate LastIsOther(s: seq<Sent>, p: nat, release: bool) {
    exists i :: && 0 <= i < |s| && !s[i].own && Position(s[i].code) == p && IsBreak(s[i].code) == release
                && forall j :: i < j < |s| ==> Position(s[j].code) != p
  }

  lemma {:induction false} LastIsOtherSnoc(s: seq<Sent>, x: Sent, p: nat, release: bool)
    ensures LastIsOther(s + [x], p, release)
            <==> if Position(x.code) == p then !x.own && IsBreak(x.code) == release else LastIsOther(s, p, release)
  {
    hide Position, IsBreak;
    var t, n := s + [x], |s|;
    assert t[n] == x && forall i :: 0 <= i < n ==> t[i] == s[i];
    if Position(x.code) != p && LastIsOther(s, p, release) {
      var i :| && 0 <= i < |s| && !s[i].own && Position(s[i].code) == p && IsBreak(s[i].code) == release
               && forall j :: i < j < |s| ==> Position(s[j].code) != p;
      assert t[i] == s[i];
    }
    if LastIsOther(t, p, release) {
      var i :| && 0 <= i < |t| && !t[i].own && Position(t[i].code) == p && IsBreak(t[i].code) == release
               && forall j :: i < j < |t| ==> Position(t[j].code) != p;
      assert i < n ==> s[i] == t[i] && Position(t[n].code) != p;
      assert i < n ==> forall j :: i < j < n ==> Position(s[j].code) == Position(t[j].code);
    }
  }

  /** What stands is what it is said to be. */
  lemma {:induction false} StandingMeans(s: seq<Sent>, p: nat)
    ensures p in StandingAfter(s).up <==> LastIsOther(s, p, true)
    ensures p in StandingAfter(s).down <==> LastIsOther(s, p, false)
  {
    hide Position, IsBreak, LastIsOther;
    if s == [] {
      NothingIsOther(p);
    } else {
      var init, x := s[..|s| - 1], s[|s| - 1];
      StandingMeans(init, p);
      LastIsOtherSnoc(init, x, p, true);
      LastIsOtherSnoc(init, x, p, false);
      assert s == init + [x];
    }
  }

  lemma {:induction false} NothingIsOther(p: nat)
    ensures !LastIsOther([], p, true) && !LastIsOther([], p, false)
  {
  }

  /** What the guest believes, in every interleaving: what the own codes alone would make it
      believe, less what others released last and with what others pressed last. */
  lemma {:induction false} GuestBelief(s: seq<Sent>)
    ensures var o := StandingAfter(s);
            && o.up !! o.down
            && GuestReplay({}, AllCodes(s)) == GuestReplay({}, OwnCodes(s)) - o.up + o.down
  {
    hide Position, IsBreak;
    if s != [] {
      var init, x := s[..|s| - 1], s[|s| - 1];
      GuestBelief(init);
      var a, w := AllCodes(init), OwnCodes(init);
      assert (a + [x.code])[..|a|] == a && (w + [x.code])[..|w|] == w;
      assert !x.own ==> OwnCodes(s) == w;
    }
  }

  /** The other senders do no harm exactly when they released nothing last that is held, and
      pressed nothing last that is not. */
  lemma {:induction false} AgreementIff(s: seq<Sent>)
    ensures var own, o := GuestReplay({}, OwnCodes(s)), StandingAfter(s);
            GuestReplay({}, AllCodes(s)) == own <==> o.up !! own && o.down <= own
  {
    hide GuestReplay, StandingAfter, AllCodes, OwnCodes;
    GuestBelief(s);
    var own, o, all := GuestReplay({}, OwnCodes(s)), StandingAfter(s), GuestReplay({}, AllCodes(s));
    if all == own {
      assert forall p :: p in o.up ==> p !in o.down && p !in all;
      assert forall p :: p in o.down ==> p in all;
    }
  }

  // ----- Runs of codes

  function Tag(own: bool, codes: seq<nat>): (s: seq<Sent>)
    ensures |s| == |codes|
  {
    seq(|codes|, i requires 0 <= i < |codes| => Sent(own, codes[i]))
  }

  lemma {:induction false} TagSnoc(own: bool, codes: seq<nat>)
    requires codes != []
    ensures Tag(own, codes) == Tag(own, codes[..|codes| - 1]) + [Sent(own, codes[|codes| - 1])]
  {
  }

  lemma {:induction false} AppendTagged(s: seq<Sent>, own: bool, codes: seq<nat>)
    ensures AllCodes(s + Tag(own, codes)) == AllCodes(s) + codes
    ensures OwnCodes(s + Tag(own, codes)) == OwnCodes(s) + (if own then codes else [])
    decreases |codes|
  {
    if codes == [] {
      assert s + Tag(own, codes) == s;
    } else {
      var init, c := codes[..|codes| - 1], codes[|codes| - 1];
      AppendTagged(s, own, init);
      TagSnoc(own, codes);
      var t := s + Tag(own, init);
      assert s + Tag(own, codes) == t + [Sent(own, c)];
      assert (t + [Sent(own, c)])[..|t|] == t;
      assert codes == init + [c];
    }
  }
}
