// The receive loop of tileWorker (www/handlers/admin/cache.go) on the cache object: what one
// worker does with the tiles it happens to receive.

module TileWorker {
  import opened Wrappers
  import opened Quadtree
  import opened Packet
  import opened CacheKeys
  import opened CacheProtocol
  import opened Cache
  import opened PrimingPool

  // What the surroundings answer for one tile: whether a URL could be built, what the tile server
  // sent, and whether the response body could be written out.
  datatype Reply = Reply(urlOk: bool, code: int, body: Bytes, headers: Headers, writeOk: bool)

  function OutcomeOf(r: Reply): Outcome {
    if !r.urlOk then Skip else if Accepts(r.code, r.body) && r.writeOk then Success else Fail
  }

  // How many tiles are received: up to and including the first failure.
  function Received(replies: seq<Reply>): (n: nat)
    ensures n <= |replies|
    ensures forall i :: 0 <= i < n - 1 ==> !OutcomeOf(replies[i]).Fail?
    ensures n < |replies| ==> n > 0 && OutcomeOf(replies[n - 1]).Fail?
  {
    if replies == [] then 0
    else if OutcomeOf(replies[0]).Fail? then 1
    else 1 + Received(replies[1..])
  }

  // A tile without a URL is passed over; with one, it is primed by a 204 response or by a 200 response
  // with a body, if that could be written out, and anything else is a failure.
  lemma OutcomesByCode(r: Reply)
    ensures OutcomeOf(r).Skip? <==> !r.urlOk
    ensures OutcomeOf(r).Success? <==>
            r.urlOk && r.writeOk && (r.code == 204 || (r.code == 200 && r.body != []))
    ensures OutcomeOf(r).Fail? <==>
            r.urlOk && (!r.writeOk || (r.code != 200 && r.code != 204) || (r.code == 200 && r.body == []))
  {
  }

  // The cache write started for a reply, if it is a success.
  function WriteOf(key: Key, r: Reply): multiset<Task> {
    When(OutcomeOf(r).Success?, Encoding(key, r.body, r.headers))
  }

  // The cache writes started for the successes, each under the key built for its tile.
  function Started(keys: seq<Key>, replies: seq<Reply>): multiset<Task>
    requires |keys| == |replies|
  {
    if keys == [] then multiset{} else
      var (n, r) := (|keys| - 1, replies[|keys| - 1]);
      Started(keys[..n], replies[..n]) + WriteOf(keys[n], r)
  }

  function Successes(replies: seq<Reply>): nat {
    if replies == [] then 0
    else Successes(replies[..|replies| - 1]) + if OutcomeOf(replies[|replies| - 1]).Success? then 1 else 0
  }

  function PrimedAmong(replies: seq<Reply>): set<nat> {
    set i: nat | i < |replies| && OutcomeOf(replies[i]).Success?
  }

  // Each tile primed counts once, and no other.
  lemma {:induction false} SuccessesCounted(replies: seq<Reply>)
    ensures Successes(replies) == |set i: nat | i < |replies| && OutcomeOf(replies[i]).Success?|
  {
    hide OutcomeOf;
    if replies == [] {
      assert PrimedAmong(replies) == {};
    } else {
      var n := |replies| - 1;
      SuccessesCounted(replies[..n]);
      var before := PrimedAmong(replies[..n]);
      assert PrimedAmong(replies) == if OutcomeOf(replies[n]).Success? then before + {n} else before;
    }
  }

  lemma AddAssociates(a: multiset<Task>, b: multiset<Task>, c: multiset<Task>)
    ensures (a + b) + c == a + (b + c)
  {
  }

  lemma NothingYet()
    ensures Successes([]) == 0 && Started([], []) == multiset{}
  {
  }

  lemma OneMoreReply(keys: seq<Key>, key: Key, replies: seq<Reply>, n: nat)
    requires |keys| == n < |replies|
    ensures Successes(replies[..n + 1]) == Successes(replies[..n]) + if OutcomeOf(replies[n]).Success? then 1 else 0
    ensures Started(keys + [key], replies[..n + 1]) == Started(keys, replies[..n]) + WriteOf(key, replies[n])
  {
    hide OutcomeOf, WriteOf;
    assert (keys + [key])[..n] == keys && replies[..n + 1][..n] == replies[..n];
  }

  // n tiles in, none of them failed.
  lemma StillReceiving(replies: seq<Reply>, n: nat)
    requires n <= |replies| && forall i :: 0 <= i < n ==> !OutcomeOf(replies[i]).Fail?
    ensures n == |replies| ==> Received(replies) == n
    ensures n < |replies| && OutcomeOf(replies[n]).Fail? ==> Received(replies) == n + 1
  {
  }

  // key belongs to tile t.
  ghost predicate RightKey(kc: KeyConfig, req: Request, t: Tile, key: Key) {
    IsKeyOf(kc, req, t, key) && (Clean(kc, req) ==> key == CacheKey(kc, req, t))
  }

  // One turn of the loop: what becomes of a received tile. A success starts one EncodeSet, under
  // the tile's own key; nothing else touches the cache.
  method WorkOn(cache: Cache, kc: KeyConfig, req: Request, tile: Tile, reply: Reply)
    returns (outcome: Outcome, ghost key: Key)
    modifies cache`background
    ensures outcome == OutcomeOf(reply)
    ensures !reply.urlOk ==> outcome == Skip
    ensures reply.urlOk && reply.writeOk && (reply.code == 204 || (reply.code == 200 && reply.body != [])) ==>
              outcome == Success
    ensures reply.urlOk && !reply.writeOk ==> outcome == Fail
    ensures reply.urlOk && reply.code != 200 && reply.code != 204 ==> outcome == Fail
    ensures reply.urlOk && reply.code == 200 && reply.body == [] ==> outcome == Fail
    ensures cache.background == old(cache.background) + WriteOf(key, reply)
    ensures outcome.Success? ==> RightKey(kc, req, tile, key)
  {
    key := "";
    AddNothing(cache.background);
    if !reply.urlOk { return Skip, key; }
    var cacheKey, order := BuildCacheKey(kc, req, Some(tile));
    if cacheKey.None? { return Skip, key; }
    key := cacheKey.value;
    var ok := cache.ProcessResponse(cacheKey.value, reply.code, reply.body, reply.headers, reply.writeOk);
    outcome := if ok then Success else Fail;
  }

  // The worker stops at its first failure, whatever is left in the channel.
  method Worker(cache: Cache, kc: KeyConfig, req: Request, tiles: seq<Tile>, replies: seq<Reply>)
    returns (successes: nat, ghost keys: seq<Key>)
    requires |tiles| == |replies|
    modifies cache`background
    ensures |keys| == Received(replies) && successes == Successes(replies[..|keys|])
    ensures forall i :: 0 <= i < |keys| - 1 && replies[i].urlOk ==>
              replies[i].writeOk && (replies[i].code == 204 || (replies[i].code == 200 && replies[i].body != []))
    ensures |keys| < |tiles| ==>
              |keys| > 0 && var last := replies[|keys| - 1];
              last.urlOk && (!last.writeOk || !(last.code == 204 || (last.code == 200 && last.body != [])))
    ensures cache.background == old(cache.background) + Started(keys, replies[..|keys|])
    ensures forall i :: 0 <= i < |keys| && OutcomeOf(replies[i]).Success? ==> RightKey(kc, req, tiles[i], keys[i])
  {
    NothingYet();
    hide Clean, CacheKey, Accepts, When, Started, Successes, Received, WriteOf, OutcomeOf, RightKey;
    successes, keys := 0, [];
    var received := 0;
    assert replies[..0] == [];
    while received < |tiles|
      invariant received == |keys| <= |tiles| && successes == Successes(replies[..received])
      invariant forall i :: 0 <= i < received ==> !OutcomeOf(replies[i]).Fail?
      invariant forall i :: 0 <= i < received && replies[i].urlOk ==>
                  replies[i].writeOk && (replies[i].code == 204 || (replies[i].code == 200 && replies[i].body != []))
      invariant cache.background == old(cache.background) + Started(keys, replies[..received])
      invariant forall i :: 0 <= i < received && OutcomeOf(replies[i]).Success? ==> RightKey(kc, req, tiles[i], keys[i])
    {
      StillReceiving(replies, received);
      ghost var before := Started(keys, replies[..received]);
      var outcome, key := WorkOn(cache, kc, req, tiles[received], replies[received]);
      OneMoreReply(keys, key, replies, received);
      AddAssociates(old(cache.background), before, WriteOf(key, replies[received]));
      received, keys := received + 1, keys + [key];
      if outcome.Skip? { continue; }
      if outcome.Fail? { return; }
      successes := successes + 1;
    }
    StillReceiving(replies, received);
  }
}
