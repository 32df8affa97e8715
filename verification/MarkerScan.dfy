/**
 * The overlapped scan of archive members for forbidden path markers
 * (scripts/verify-packaged-boundary.py, scan_bytes and scan_archive).
 */
module MarkerScan {
  import opened Basics

  predicate OccursAt(s: Bytes, m: Bytes, i: nat) {
    i + |m| <= |s| && s[i..i + |m|] == m
  }

  predicate Contains(s: Bytes, m: Bytes) {
    exists i: nat :: i <= |s| && OccursAt(s, m, i)
  }

  ghost predicate ContainsAny(s: Bytes, markers: seq<Bytes>) {
    exists m :: m in markers && Contains(s, m)
  }

  function Concat(chunks: seq<Bytes>): (s: Bytes) {
    if chunks == [] then [] else Concat(chunks[..|chunks| - 1]) + chunks[|chunks| - 1]
  }

  /** The last `k` bytes, or everything when there are fewer. */
  function Tail(s: Bytes, k: nat): (t: Bytes) {
    if |s| <= k then s else s[|s| - k..]
  }

  method ScanBytes(payload: Bytes, markers: seq<Bytes>) returns (found: bool)
    ensures found <==> ContainsAny(payload, markers)
  {
    for k := 0 to |markers|
      invariant forall j | 0 <= j < k :: !Contains(payload, markers[j])
    {
      if Contains(payload, markers[k]) {
        return true;
      }
    }
    return false;
  }

  method LongestMarker(markers: seq<Bytes>) returns (longest: nat)
    ensures forall m | m in markers :: |m| <= longest
    ensures if markers == [] then longest == 1 else exists m :: m in markers && |m| == longest
  {
    if markers == [] {
      return 1;
    }
    longest := |markers[0]|;
    for k := 1 to |markers|
      invariant forall j | 0 <= j < k :: |markers[j]| <= longest
      invariant exists j :: 0 <= j < k && |markers[j]| == longest
    {
      if |markers[k]| > longest {
        longest := |markers[k]|;
      }
    }
  }

  lemma OccursInSuffix(s: Bytes, m: Bytes, skip: nat, i: nat)
    requires skip + i <= |s|
    ensures OccursAt(s[skip..], m, i) <==> OccursAt(s, m, skip + i)
  {
    if skip + i + |m| <= |s| {
      assert s[skip..][i..i + |m|] == s[skip + i..skip + i + |m|];
    }
  }

  lemma OccurrenceEndsInNewChunk(done: Bytes, chunk: Bytes, m: Bytes, k: nat)
    requires |m| <= k + 1 && m != []
    ensures Contains(done + chunk, m) <==> Contains(done, m) || Contains(Tail(done, k) + chunk, m)
  {
    var whole := done + chunk;
    var tail := Tail(done, k);
    var skip := |done| - |tail|;
    assert tail + chunk == whole[skip..];
    if Contains(whole, m) {
      var i: nat :| i <= |whole| && OccursAt(whole, m, i);
      if i + |m| <= |done| {
        assert OccursAt(done, m, i) by {
          assert whole[i..i + |m|] == done[i..i + |m|];
        }
      } else {
        OccursInSuffix(whole, m, skip, i - skip);
      }
    }
    if Contains(done, m) {
      var i: nat :| i <= |done| && OccursAt(done, m, i);
      assert OccursAt(whole, m, i) by {
        assert whole[i..i + |m|] == done[i..i + |m|];
      }
    }
    if Contains(tail + chunk, m) {
      var i: nat :| i <= |tail + chunk| && OccursAt(tail + chunk, m, i);
      OccursInSuffix(whole, m, skip, i);
    }
  }

  /** With nothing found so far, scanning the kept overlap and the new chunk decides the longer prefix. */
  lemma OverlapDecides(done: Bytes, chunk: Bytes, markers: seq<Bytes>, k: nat)
    requires forall m | m in markers :: m != [] && |m| <= k + 1
    requires !ContainsAny(done, markers)
    ensures ContainsAny(done + chunk, markers) <==> ContainsAny(Tail(done, k) + chunk, markers)
  {
    forall m | m in markers
      ensures Contains(done + chunk, m) <==> Contains(Tail(done, k) + chunk, m)
    {
      OccurrenceEndsInNewChunk(done, chunk, m, k);
    }
  }

  lemma TailOfTail(done: Bytes, chunk: Bytes, k: nat)
    ensures Tail(Tail(done, k) + chunk, k) == Tail(done + chunk, k)
  {
  }

  lemma ConcatNext(chunks: seq<Bytes>, i: nat)
    requires i < |chunks|
    ensures Concat(chunks[..i + 1]) == Concat(chunks[..i]) + chunks[i]
  {
    assert chunks[..i + 1][..i] == chunks[..i];
  }

  /** For every way a member is split into chunks, the scan raises exactly when some marker occurs in the
      whole payload. The marker table never holds an empty marker. */
  method ScanMember(chunks: seq<Bytes>, markers: seq<Bytes>) returns (found: bool)
    requires [] !in markers
    ensures found <==> ContainsAny(Concat(chunks), markers)
  {
    var longest := LongestMarker(markers);
    var keep := if longest > 1 then longest - 1 else 0;
    var overlap: Bytes := [];
    for i := 0 to |chunks|
      invariant overlap == Tail(Concat(chunks[..i]), keep)
      invariant !ContainsAny(Concat(chunks[..i]), markers)
    {
      ConcatNext(chunks, i);
      OverlapDecides(Concat(chunks[..i]), chunks[i], markers, keep);
      TailOfTail(Concat(chunks[..i]), chunks[i], keep);
      found := ScanBytes(overlap + chunks[i], markers);
      if found {
        ScanStaysFound(chunks, i + 1, markers);
        return;
      }
      overlap := Tail(overlap + chunks[i], keep);
    }
    assert chunks[..|chunks|] == chunks;
    return false;
  }

  lemma {:induction false} ScanStaysFound(chunks: seq<Bytes>, i: nat, markers: seq<Bytes>)
    requires i <= |chunks| && ContainsAny(Concat(chunks[..i]), markers)
    ensures ContainsAny(Concat(chunks), markers)
    decreases |chunks| - i
  {
    if i == |chunks| {
      assert chunks[..i] == chunks;
    } else {
      assert chunks[..i + 1][..i] == chunks[..i];
      var m :| m in markers && Contains(Concat(chunks[..i]), m);
      var at: nat :| at <= |Concat(chunks[..i])| && OccursAt(Concat(chunks[..i]), m, at);
      assert OccursAt(Concat(chunks[..i + 1]), m, at);
      ScanStaysFound(chunks, i + 1, markers);
    }
  }
}
