/** The simulator's snapshot payload stores and chunk staging
    (crates/rafter-sim/src/snapshot.rs). */
module SimSnapshots {
  import opened Prelude

  type Bytes = seq<int>

  /** What identifies a transfer: its descriptor and the leader that serves it. */
  datatype Descriptor = Descriptor(id: nat, len: nat, crc: nat)

  datatype Staged = Staged(leader: nat, descriptor: Descriptor, bytes: Bytes)

  datatype Chunk = Chunk(leader: nat, descriptor: Descriptor, offset: nat, bytes: Bytes, done: bool)

  /** One node's staging after a chunk, or nothing if the chunk breaches the staging contract. */
  function Stage(staged: map<nat, Staged>, node: nat, c: Chunk): Option<map<nat, Staged>> {
    if c.offset == 0 then
      if c.done && |c.bytes| != c.descriptor.len then None
      else Some(staged[node := Staged(c.leader, c.descriptor, c.bytes)])
    else if node !in staged then None
    else
      var s := staged[node];
      if s.leader != c.leader || s.descriptor != c.descriptor || c.offset != |s.bytes| then None
      else if c.done && |s.bytes + c.bytes| != s.descriptor.len then None
      else Some(staged[node := s.(bytes := s.bytes + c.bytes)])
  }

  class SnapshotStores {
    var staging: map<nat, Staged>
    /** Payloads by node and transfer. */
    var sources: map<(nat, nat), Bytes>

    constructor ()
      ensures staging == map[] && sources == map[]
    {
      staging, sources := map[], map[];
    }

    /** Appends one chunk in strict offset order; offset zero begins or replaces a transfer.
        Everything else is a breach. */
    method StageSnapshotChunk(node: nat, c: Chunk) returns (ok: bool)
      modifies this`staging
      ensures ok <==> Stage(old(staging), node, c).Some?
      ensures ok ==> staging == Stage(old(staging), node, c).value
      ensures forall n :: n != node ==>
        (n in staging <==> n in old(staging)) && (n in staging ==> staging[n] == old(staging)[n])
      ensures ok ==> node in staging && staging[node].leader == c.leader && staging[node].descriptor == c.descriptor
      ensures ok ==> |staging[node].bytes| == c.offset + |c.bytes| && staging[node].bytes[c.offset..] == c.bytes
      ensures ok && c.offset > 0 ==>
        && node in old(staging)
        && old(staging)[node].leader == c.leader && old(staging)[node].descriptor == c.descriptor
        && staging[node].bytes[..c.offset] == old(staging)[node].bytes
      ensures ok && c.done ==> c.offset + |c.bytes| == c.descriptor.len
    {
      if c.offset == 0 {
        staging := staging[node := Staged(c.leader, c.descriptor, c.bytes)];
      } else {
        if node !in staging { return false; }
        var s := staging[node];
        if s.leader != c.leader || s.descriptor != c.descriptor { return false; }
        if c.offset != |s.bytes| { return false; }
        staging := staging[node := s.(bytes := s.bytes + c.bytes)];
      }
      if c.done && |staging[node].bytes| != staging[node].descriptor.len { return false; }
      return true;
    }

    /** Promotes the completed transfer of `d`: its bytes become the node's payload for it. */
    method TakeInstalledPayload(node: nat, d: Descriptor) returns (r: Option<Bytes>)
      modifies this
      ensures r.Some? <==> Promotable(old(staging), old(sources), node, d)
      ensures r.Some? ==>
        && r.value == old(staging)[node].bytes
        && staging == old(staging) - {node} && sources == old(sources)[(node, d.id) := r.value]
        && |r.value| == d.len && old(staging)[node].descriptor.id == d.id && old(staging)[node].descriptor.crc == d.crc
      ensures r.Some? ==>
        var served := (old(staging)[node].leader, d.id);
        served in old(sources) ==> old(sources)[served] == r.value
    {
      if node !in staging { return None; }
      var s := staging[node];
      staging := staging - {node};
      if s.descriptor.id != d.id || |s.bytes| != d.len || s.descriptor.crc != d.crc { return None; }
      if (s.leader, d.id) in sources && sources[(s.leader, d.id)] != s.bytes { return None; }
      sources := sources[(node, d.id) := s.bytes];
      return Some(s.bytes);
    }
  }

  /** A complete transfer of `d` is staged, and its bytes are those its leader serves, if the
      leader still holds them. */
  predicate Promotable(staging: map<nat, Staged>, sources: map<(nat, nat), Bytes>, node: nat, d: Descriptor) {
    && node in staging
    && staging[node].descriptor.id == d.id && staging[node].descriptor.crc == d.crc && |staging[node].bytes| == d.len
    && ((staging[node].leader, d.id) in sources ==> sources[(staging[node].leader, d.id)] == staging[node].bytes)
  }

  // ---------------------------------------------------------------------------
  // A transfer, chunk by chunk

  /** A chunk cut from `payload`. */
  predicate CutFrom(c: Chunk, leader: nat, d: Descriptor, payload: Bytes) {
    && c.leader == leader && c.descriptor == d && d.len == |payload|
    && c.offset + |c.bytes| <= |payload| && c.bytes == payload[c.offset..c.offset + |c.bytes|]
    && (c.done <==> c.offset + |c.bytes| == |payload|)
  }

  /** In offset order, with restarts at zero. */
  predicate InOrder(chunks: seq<Chunk>, received: nat)
    decreases |chunks|
  {
    chunks == [] ||
    (&& (chunks[0].offset == 0 || chunks[0].offset == received)
     && InOrder(chunks[1..], chunks[0].offset + |chunks[0].bytes|))
  }

  function StageAll(staged: map<nat, Staged>, node: nat, chunks: seq<Chunk>): Option<map<nat, Staged>>
    decreases |chunks|
  {
    if chunks == [] then Some(staged)
    else match Stage(staged, node, chunks[0])
         case Some(next) => StageAll(next, node, chunks[1..])
         case None => None
  }

  /** How much of the payload has been received. */
  function Received(staged: map<nat, Staged>, node: nat): nat { if node in staged then |staged[node].bytes| else 0 }

  predicate StagedPrefix(staged: map<nat, Staged>, node: nat, leader: nat, d: Descriptor, payload: Bytes) {
    node in staged ==> staged[node].leader == leader && staged[node].descriptor == d && staged[node].bytes <= payload
  }

  lemma StageKeepsPrefix(staged: map<nat, Staged>, node: nat, c: Chunk, leader: nat, d: Descriptor, payload: Bytes)
    requires CutFrom(c, leader, d, payload) && StagedPrefix(staged, node, leader, d, payload)
    requires c.offset == 0 || c.offset == Received(staged, node)
    ensures Stage(staged, node, c).Some?
    ensures StagedPrefix(Stage(staged, node, c).value, node, leader, d, payload)
    ensures node in Stage(staged, node, c).value && Received(Stage(staged, node, c).value, node) == c.offset + |c.bytes|
  {
    if c.offset == 0 {
      assert c.bytes == payload[..|c.bytes|];
    } else {
      var s := staged[node].bytes;
      assert s + c.bytes == payload[..|s| + |c.bytes|];
    }
  }

  /** Any run of chunks cut from one payload, in order and restarting at will, is accepted,
      keeps the staging a prefix of the payload, and once a final chunk has arrived stages
      exactly the payload, which can be promoted unless its leader now serves other bytes. */
  lemma {:induction false} TransferExact(
    staged: map<nat, Staged>, sources: map<(nat, nat), Bytes>, node: nat, chunks: seq<Chunk>, leader: nat,
    d: Descriptor, payload: Bytes)
    requires forall c :: c in chunks ==> CutFrom(c, leader, d, payload)
    requires StagedPrefix(staged, node, leader, d, payload) && InOrder(chunks, Received(staged, node))
    ensures StageAll(staged, node, chunks).Some?
    ensures StagedPrefix(StageAll(staged, node, chunks).value, node, leader, d, payload)
    ensures chunks != [] && chunks[|chunks| - 1].done ==>
      var after := StageAll(staged, node, chunks).value;
      && node in after && after[node].bytes == payload
      && (Promotable(after, sources, node, d) <==>
        ((leader, d.id) in sources ==> sources[(leader, d.id)] == payload))
    decreases |chunks|
  {
    if chunks != [] {
      var c := chunks[0];
      assert c in chunks;
      StageKeepsPrefix(staged, node, c, leader, d, payload);
      var next := Stage(staged, node, c).value;
      TransferExact(next, sources, node, chunks[1..], leader, d, payload);
      if |chunks| > 1 {
        assert chunks[1..][|chunks[1..]| - 1] == chunks[|chunks| - 1];
      }
    }
  }
}
