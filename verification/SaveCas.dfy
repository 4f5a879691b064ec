/**
 SaveCAS as the storage service runs it: one call, start to finish, against the disk it updates.
 Every call is an execution of the protocol machine in CasStore, whatever faults it meets.
 */
module SaveCas {
  import opened Content
  import opened CasStore

  /** What the operating system does to one call. */
  datatype Faults = Faults(readFails: bool, statFails: bool, renameFails: bool, restatFails: bool, removeFails: bool)

  /** The bytes a reader delivers, in the order it delivers them. */
  function Flatten(chunks: seq<Bytes>): Bytes {
    if chunks == [] then [] else Flatten(chunks[..|chunks| - 1]) + chunks[|chunks| - 1]
  }

  lemma {:induction false} FlattenPrefix(chunks: seq<Bytes>, i: nat)
    requires i <= |chunks|
    ensures Flatten(chunks[..i]) <= Flatten(chunks)
    decreases |chunks|
  {
    if i < |chunks| {
      var front := chunks[..|chunks| - 1];
      FlattenPrefix(front, i);
      assert front[..i] == chunks[..i];
    } else {
      assert chunks[..i] == chunks;
    }
  }

  lemma FlattenSnoc(chunks: seq<Bytes>, i: nat)
    requires i < |chunks|
    ensures Flatten(chunks[..i + 1]) == Flatten(chunks[..i]) + chunks[i]
  {
    assert chunks[..i + 1][..i] == chunks[..i];
  }

  lemma {:induction false} RunSnoc(hash: Hasher, s: Store, trace: seq<Event>, s': Store, e: Event)
    requires Run(hash, s, trace, s') && Enabled(hash, s', e)
    ensures Run(hash, s, trace + [e], Apply(hash, s', e))
    decreases |trace|
  {
    if trace == [] {
      RunStep(hash, s, e, [], Apply(hash, s, e));
      assert trace + [e] == [e] + [];
    } else {
      RunSnoc(hash, Apply(hash, s, trace[0]), trace[1..], s', e);
      assert (trace + [e])[1..] == trace[1..] + [e];
    }
  }

  /** One write of the copy loop: the machine accepts it, and the temporary file grows by the chunk. */
  lemma ChunkStep(hash: Hasher, start: Store, trace: seq<Event>, s: Store,
                  stamp: int, stream: Bytes, copied: Bytes, chunk: Bytes)
    requires Run(hash, start, trace, s) && copied + chunk <= stream
    requires s.calls == map[0 := Call(stamp, stream, Copying(|copied|))]
    requires stamp in s.disk.temps && s.disk.temps[stamp] == copied
    ensures Enabled(hash, s, CopyChunk(0, |chunk|))
    ensures Run(hash, start, trace + [CopyChunk(0, |chunk|)], Apply(hash, s, CopyChunk(0, |chunk|)))
    ensures
      var s' := Apply(hash, s, CopyChunk(0, |chunk|));
      s'.disk == s.disk.(temps := s.disk.temps[stamp := copied + chunk])
      && s'.calls == map[0 := Call(stamp, stream, Copying(|copied + chunk|))]
  {
    assert stream[|copied|..|copied| + |chunk|] == chunk;
    RunSnoc(hash, start, trace, s, CopyChunk(0, |chunk|));
  }

  class StorageService {
    var temps: map<int, Bytes>
    var objects: map<string, Bytes>

    constructor (temps: map<int, Bytes>, objects: map<string, Bytes>)
      ensures this.temps == temps && this.objects == objects
    {
      this.temps, this.objects := temps, objects;
    }

    ghost function Idle(): Store
      reads this
    {
      Store(Disk(temps, objects), map[], {}, {})
    }

    /**
     Streams the reader into the store. The call fails exactly when the read fails, or when the
     rename fails and the second look finds nothing. On success the object is there unless a stat
     failed while it was missing, and then nothing was stored at all. The temporary file is left behind
     exactly when it was not renamed and could not be removed.
     */
    method SaveCAS(hash: Hasher, stamp: int, chunks: seq<Bytes>, faults: Faults)
        returns (result: SaveResult, ghost trace: seq<Event>, ghost after: Store)
      modifies this
      ensures
        var stream := Flatten(chunks);
        var present := hash(stream) in old(objects);
        var renamed := !faults.readFails && !faults.statFails && !present && !faults.renameFails;
        var published := if renamed then old(objects)[hash(stream) := stream] else old(objects);
        && objects == published
        && temps - {stamp} == old(temps) - {stamp} && (stamp in temps <==> faults.removeFails && !renamed)
        && (result == if faults.readFails
                        || (!faults.statFails && !present && faults.renameFails && !faults.restatFails)
                      then Failed else Stored(hash(stream), |stream|))
      ensures result.Stored? ==>
        (result.checksum !in objects <==>
           result.checksum !in old(objects) && (faults.statFails || (faults.renameFails && faults.restatFails)))
      ensures Run(hash, old(Idle()), trace, after) && after.disk == Disk(temps, objects)
    {
      ghost var start := Idle();
      var copied;
      copied, trace, after := CopyToTemp(hash, stamp, chunks);
      if faults.readFails {
        RunSnoc(hash, start, trace, after, CopyError(0));
        trace, after := trace + [CopyError(0)], Apply(hash, after, CopyError(0));
        trace, after := Remove(hash, stamp, faults.removeFails, start, trace, after);
        result := Failed;
      } else {
        RunSnoc(hash, start, trace, after, CopyEnd(0));
        trace, after := trace + [CopyEnd(0)], Apply(hash, after, CopyEnd(0));
        result, trace, after := Publish(hash, stamp, copied, faults, start, trace, after);
      }
    }

    /** Creates the temporary file and appends to it whatever the reader delivers. */
    method CopyToTemp(hash: Hasher, stamp: int, chunks: seq<Bytes>)
        returns (copied: Bytes, ghost trace: seq<Event>, ghost after: Store)
      modifies this`temps
      ensures copied == Flatten(chunks) && temps == old(temps)[stamp := copied]
      ensures Run(hash, old(Idle()), trace, after) && after.disk == Disk(temps, objects)
      ensures after.calls == map[0 := Call(stamp, copied, Copying(|copied|))]
    {
      ghost var start := Idle();
      ghost var stream := Flatten(chunks);
      temps := temps[stamp := []];
      after := Apply(hash, start, Begin(0, stamp, stream));
      trace := [Begin(0, stamp, stream)];
      RunStep(hash, start, Begin(0, stamp, stream), [], after);
      assert trace == [Begin(0, stamp, stream)] + [];

      copied := [];
      var i := 0;
      while i < |chunks|
        invariant 0 <= i <= |chunks|
        invariant copied == Flatten(chunks[..i]) && copied <= stream
        invariant temps == old(temps)[stamp := copied]
        invariant after.disk == Disk(temps, objects)
        invariant after.calls == map[0 := Call(stamp, stream, Copying(|copied|))]
        invariant Run(hash, start, trace, after)
      {
        ghost var e := CopyChunk(0, |chunks[i]|);
        FlattenPrefix(chunks, i + 1);
        FlattenSnoc(chunks, i);
        ChunkStep(hash, start, trace, after, stamp, stream, copied, chunks[i]);
        trace, after := trace + [e], Apply(hash, after, e);
        copied := copied + chunks[i];
        temps := temps[stamp := copied];
        i := i + 1;
      }
      assert chunks[..i] == chunks;
    }

    /** Tests for the object, then renames the temporary file into place or discards it. */
    method Publish(hash: Hasher, stamp: int, copied: Bytes, faults: Faults,
                   ghost start: Store, ghost before: seq<Event>, ghost reached: Store)
        returns (result: SaveResult, ghost trace: seq<Event>, ghost after: Store)
      requires stamp in temps && temps[stamp] == copied
      requires Run(hash, start, before, reached) && reached.disk == Disk(temps, objects)
      requires reached.calls == map[0 := Call(stamp, copied, Hashed)]
      modifies this
      ensures
        var present := hash(copied) in old(objects);
        var renamed := !faults.statFails && !present && !faults.renameFails;
        && objects == (if renamed then old(objects)[hash(copied) := copied] else old(objects))
        && temps - {stamp} == old(temps) - {stamp} && (stamp in temps <==> faults.removeFails && !renamed)
        && (result == if !faults.statFails && !present && faults.renameFails && !faults.restatFails
                      then Failed else Stored(hash(copied), |copied|))
      ensures Run(hash, start, trace, after) && after.disk == Disk(temps, objects)
    {
      var checksum := hash(copied);
      var answer := if faults.statFails then StatError else if checksum in objects then Found else NotFound;
      RunSnoc(hash, start, before, reached, Probe(0, answer));
      trace, after := before + [Probe(0, answer)], Apply(hash, reached, Probe(0, answer));
      if Exists(answer) {
        trace, after := Remove(hash, stamp, faults.removeFails, start, trace, after);
        return Stored(checksum, |copied|), trace, after;
      }

      ghost var rename := Rename(0, !faults.renameFails);
      RunSnoc(hash, start, trace, after, rename);
      trace, after := trace + [rename], Apply(hash, after, rename);
      if !faults.renameFails {
        objects := objects[checksum := temps[stamp]];
        temps := temps - {stamp};
        return Stored(checksum, |copied|), trace, after;
      }

      answer := if faults.restatFails then StatError else NotFound;
      RunSnoc(hash, start, trace, after, Reprobe(0, answer));
      trace, after := trace + [Reprobe(0, answer)], Apply(hash, after, Reprobe(0, answer));
      trace, after := Remove(hash, stamp, faults.removeFails, start, trace, after);
      result := if Exists(answer) then Stored(checksum, |copied|) else Failed;
    }

    /** Removes the temporary file; the error, if any, is ignored. */
    method Remove(hash: Hasher, stamp: int, fails: bool, ghost start: Store, ghost trace: seq<Event>, ghost before: Store)
        returns (ghost trace': seq<Event>, ghost after: Store)
      requires Run(hash, start, trace, before) && before.disk == Disk(temps, objects)
      requires 0 in before.calls && before.calls[0].phase.Discarding? && before.calls[0].stamp == stamp
      modifies this`temps
      ensures temps == if fails then old(temps) else old(temps) - {stamp}
      ensures Run(hash, start, trace', after) && after.disk == Disk(temps, objects)
    {
      ghost var e := Discard(0, !fails);
      RunSnoc(hash, start, trace, before, e);
      trace', after := trace + [e], Apply(hash, before, e);
      if !fails {
        temps := temps - {stamp};
      }
    }
  }
}
