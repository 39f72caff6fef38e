/** What has been read of a result stays as it is. */
module ReplyKeys {
  import opened Stream
  import opened Reply
  import opened ReplyTheorems

  /** Result `l` has this key, and it is not being read again. */
  ghost predicate Keyed(p: Parser<string>, l: nat, key: string, keyLen: nat) {
    && l < |p.retrievals| && p.retrievals[l].key == key && p.retrievals[l].keyLen == keyLen
    && (l == |p.retrievals| - 1 ==> p.fsm != GetStart)
  }

  ghost predicate KeyedIn(r: Outcome<string>, l: nat, key: string, keyLen: nat) {
    r.Go? || r.Need? ==> Keyed(r.p, l, key, keyLen)
  }

  lemma StartKeyed(p: Parser<string>, s: string, l: nat, key: string, keyLen: nat)
    requires Keyed(p, l, key, keyLen) && p.fsm == Start
    ensures KeyedIn(StartRound(p, s), l, key, keyLen)
  {
    hide Expect, Until;
  }

  lemma ValueKeyed(p: Parser<string>, s: string, l: nat, key: string, keyLen: nat)
    requires Keyed(p, l, key, keyLen) && p.fsm == GetValueRemaining && p.retrievals != []
    ensures KeyedIn(ValueRound(p, s), l, key, keyLen)
  {}

  lemma RoundKeyed(p: Parser<string>, s: string, l: nat, key: string, keyLen: nat)
    requires Keyed(p, l, key, keyLen)
    ensures KeyedIn(Round(p, s), l, key, keyLen)
  {
    hide Until, Unsigned, StartRound, ValueRound;
    match p.fsm
    case Start => StartKeyed(p, s, l, key, keyLen);
    case GetValueRemaining => ValueKeyed(p, s, l, key, keyLen);
    case _ =>
  }

  lemma {:induction false} RunKeyed(p: Parser<string>, s: string, l: nat, key: string, keyLen: nat)
    requires Keyed(p, l, key, keyLen)
    ensures KeyedIn(Run(p, s), l, key, keyLen)
    decreases |s|, Rank(p.fsm)
  {
    hide Round;
    if !CanEnd(p) {
      RunRound(p, s);
      RoundKeyed(p, s, l, key, keyLen);
      var r := Round(p, s);
      if r.Go? {
        RunKeyed(r.p, r.rest, l, key, keyLen);
      }
    }
  }

  lemma FedKeyed(r: Outcome<string>, piece: string, l: nat, key: string, keyLen: nat)
    requires KeyedIn(r, l, key, keyLen)
    ensures KeyedIn(FeedOne(r, piece), l, key, keyLen)
  {
    hide Run;
    if r.Need? {
      RunKeyed(if r.p.fsm in {End, Error} then r.p.(fsm := Start) else r.p, r.rest + piece, l, key, keyLen);
    }
  }
}
