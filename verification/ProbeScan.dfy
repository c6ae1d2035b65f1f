/** The scan for the plaintext probe: fixed-size reads, with the tail of one carried into the next. */
module ProbeScan {
  import opened Vocabulary

  const CHUNK: nat := 256

  predicate OccursAt(hay: seq<byte>, needle: seq<byte>, i: int) {
    0 <= i && i + |needle| <= |hay| && hay[i..i + |needle|] == needle
  }

  ghost predicate Occurs(hay: seq<byte>, needle: seq<byte>) {
    exists i :: OccursAt(hay, needle, i)
  }

  method Search(buffer: array<byte>, available: nat, needle: seq<byte>) returns (found: bool)
    requires available <= buffer.Length && needle != []
    ensures found <==> Occurs(buffer[..available], needle)
  {
    var i := 0;
    while i + |needle| <= available
      invariant 0 <= i
      invariant forall j :: 0 <= j < i ==> !OccursAt(buffer[..available], needle, j)
    {
      if buffer[i..i + |needle|] == needle {
        assert OccursAt(buffer[..available], needle, i);
        return true;
      }
      assert buffer[..available][i..i + |needle|] == buffer[i..i + |needle|];
      i := i + 1;
    }
    found := false;
  }

  /** What the new part can add lies wholly in the carried tail and that part. */
  lemma TailSuffices(partition: seq<byte>, needle: seq<byte>, carry: nat, offset: nat, chunk: nat)
    requires offset + chunk <= |partition| && carry <= offset && needle != []
    requires carry == offset || carry == |needle| - 1
    ensures Occurs(partition[..offset + chunk], needle) <==>
            Occurs(partition[..offset], needle) || Occurs(partition[offset - carry..offset + chunk], needle)
  {
    var all, before := partition[..offset + chunk], partition[..offset];
    var part := partition[offset - carry..offset + chunk];
    if i :| OccursAt(part, needle, i) {
      assert all[i + offset - carry..i + offset - carry + |needle|] == part[i..i + |needle|];
      assert OccursAt(all, needle, i + offset - carry);
    }
    if i :| OccursAt(before, needle, i) {
      assert before[i..i + |needle|] == all[i..i + |needle|];
      assert OccursAt(all, needle, i);
    }
    if i :| OccursAt(all, needle, i) {
      if i + |needle| <= offset {
        assert before[i..i + |needle|] == all[i..i + |needle|];
        assert OccursAt(before, needle, i);
      } else {
        var j := i - (offset - carry);
        assert part[j..j + |needle|] == all[i..i + |needle|];
        assert OccursAt(part, needle, j);
      }
    }
  }

  /** Copies the next part in behind the carried tail. */
  method ReadChunk(buffer: array<byte>, partition: seq<byte>, carry: nat, offset: nat, chunk: nat)
    requires carry + chunk <= buffer.Length && carry <= offset && offset + chunk <= |partition|
    requires buffer[..carry] == partition[offset - carry..offset]
    modifies buffer
    ensures buffer[..carry + chunk] == partition[offset - carry..offset + chunk]
  {
    forall k | 0 <= k < chunk { buffer[carry + k] := partition[offset + k]; }
    assert buffer[..carry] == partition[offset - carry..offset];
    assert buffer[carry..carry + chunk] == partition[offset..offset + chunk];
    assert buffer[..carry + chunk] == buffer[..carry] + buffer[carry..carry + chunk];
  }

  /** Moves the last `kept` bytes to the front. */
  method KeepTail(buffer: array<byte>, available: nat, kept: nat)
    requires kept <= available <= buffer.Length
    modifies buffer
    ensures buffer[..kept] == old(buffer[available - kept..available])
  {
    forall k | 0 <= k < kept { buffer[k] := buffer[available - kept + k]; }
  }

  /** One turn of the scan: a part is read behind the tail, searched, and its own tail kept. */
  method ScanPart(buffer: array<byte>, partition: seq<byte>, probe: seq<byte>, carry: nat, offset: nat, chunk: nat)
    returns (hit: bool, kept: nat)
    requires probe != [] && carry + chunk <= buffer.Length && carry <= offset && offset + chunk <= |partition|
    requires carry == offset || carry == |probe| - 1
    requires buffer[..carry] == partition[offset - carry..offset]
    requires !Occurs(partition[..offset], probe)
    modifies buffer
    ensures hit <==> Occurs(partition[..offset + chunk], probe)
    ensures kept == if carry + chunk < |probe| - 1 then carry + chunk else |probe| - 1
    ensures kept <= buffer.Length && kept <= offset + chunk
    ensures buffer[..kept] == partition[offset + chunk - kept..offset + chunk]
  {
    hide Occurs;
    ReadChunk(buffer, partition, carry, offset, chunk);
    var available := carry + chunk;
    hit := Search(buffer, available, probe);
    TailSuffices(partition, probe, carry, offset, chunk);
    kept := if available < |probe| - 1 then available else |probe| - 1;
    ghost var part := buffer[..available];
    assert part[available - kept..available] == buffer[available - kept..available];
    KeepTail(buffer, available, kept);
    TailOfTail(partition, offset - carry, offset + chunk, kept);
  }

  /**
   * Reports the probe exactly when it occurs anywhere, across chunk borders included. A read
   * fails at the offsets in `failing`; only then is the partition called unreadable.
   */
  method ContainsPlainProbe(partition: seq<byte>, probe: seq<byte>, failing: set<nat>)
    returns (readable: bool, found: bool)
    requires probe != []
    ensures readable ==> (found <==> Occurs(partition, probe))
    ensures found ==> readable
    ensures !readable ==> exists o :: o in failing && o < |partition| && !Occurs(partition[..o], probe)
  {
    var buffer := new byte[CHUNK + |probe| - 1](_ => 0);
    var carry, offset := 0, 0;
    assert !Occurs(partition[..0], probe);
    hide Occurs;
    while offset < |partition|
      invariant 0 <= carry <= offset <= |partition| && carry < |probe|
      invariant carry == offset || carry == |probe| - 1
      invariant buffer[..carry] == partition[offset - carry..offset]
      invariant !Occurs(partition[..offset], probe)
    {
      var chunk := if |partition| - offset < CHUNK then |partition| - offset else CHUNK;
      if offset in failing { return false, false; }
      var hit, kept := ScanPart(buffer, partition, probe, carry, offset, chunk);
      if hit {
        Widen(partition, probe, offset + chunk);
        return true, true;
      }
      carry := kept;
      offset := offset + chunk;
    }
    assert partition[..offset] == partition;
    return true, false;
  }

  lemma TailOfTail(s: seq<byte>, from: nat, to: nat, kept: nat)
    requires from <= to <= |s| && kept <= to - from
    ensures s[from..to][to - from - kept..to - from] == s[to - kept..to]
  {
  }

  lemma Widen(partition: seq<byte>, probe: seq<byte>, n: nat)
    requires n <= |partition| && Occurs(partition[..n], probe)
    ensures Occurs(partition, probe)
  {
    var i :| OccursAt(partition[..n], probe, i);
    assert partition[i..i + |probe|] == partition[..n][i..i + |probe|];
    assert OccursAt(partition, probe, i);
  }
}
