/** The size estimate made before a fetch, the objects the fetch then selects, and the volume sized from it. */
module SizeEstimate {
  import opened Options
  import opened FetchStates

  datatype Entry = Entry(key: string, size: nat)

  /** A bucket at one moment: its objects, each key once. */
  predicate Listing(b: seq<Entry>) {
    forall i, j :: 0 <= i < j < |b| ==> b[i].key != b[j].key
  }

  /** `content_length` of a key; `None` where the original gets a ClientError. */
  function ContentLength(b: seq<Entry>, key: string): (r: Option<nat>)
    ensures r.Some? ==> Entry(key, r.value) in b
    ensures r.None? ==> forall e :: e in b ==> e.key != key
  {
    if b == [] then None
    else if b[0].key == key then Some(b[0].size)
    else ContentLength(b[1..], key)
  }

  /** `objects.filter(Prefix=key)`. */
  function Under(b: seq<Entry>, key: string): seq<Entry> {
    if b == [] then [] else (if key <= b[0].key then [b[0]] else []) + Under(b[1..], key)
  }

  function Sum(es: seq<Entry>): nat {
    if es == [] then 0 else es[0].size + Sum(es[1..])
  }

  function Largest(es: seq<Entry>): nat {
    if es == [] then 0
    else if es[0].size > Largest(es[1..]) then es[0].size else Largest(es[1..])
  }

  function NonEmpty(es: seq<Entry>): nat {
    if es == [] then 0 else (if es[0].size > 0 then 1 else 0) + NonEmpty(es[1..])
  }

  predicate OnlyKey(es: seq<Entry>, key: string) {
    forall i :: 0 <= i < |es| ==> es[i].key == key
  }

  /** `is_s3_file`; `None` where it raises S3Error. */
  method IsS3File(b: seq<Entry>, key: string) returns (r: Option<bool>)
    ensures r.None? <==> Under(b, key) == []
    ensures r.Some? ==>
              (r.value <==>
               ContentLength(b, key) != None && (ContentLength(b, key) != Some(0) || OnlyKey(Under(b, key), key)))
  {
    var length := ContentLength(b, key);
    UnderMembers(b, key);
    if length.Some? && length.value > 0 {
      assert Entry(key, length.value) in Under(b, key);
      return Some(true);
    }
    var subs := Under(b, key);
    var any := false;
    for i := 0 to |subs|
      invariant any <==> i > 0
      invariant forall j :: 0 <= j < i ==> subs[j].key == key
    {
      any := true;
      if subs[i].key != key {
        return Some(false);
      }
    }
    if !any {
      return None;
    }
    assert subs[0] in subs;
    r := Some(true);
  }

  /** The objects `s3_to_s3` copies: the file itself, or everything under the prefix. */
  function Selected(b: seq<Entry>, key: string): Option<seq<Entry>> {
    var length := ContentLength(b, key);
    if Under(b, key) == [] then None
    else if length.Some? && (length.value > 0 || OnlyKey(Under(b, key), key)) then Some([Entry(key, length.value)])
    else Some(Under(b, key))
  }

  lemma {:induction false} UnderMembers(b: seq<Entry>, key: string)
    ensures forall e :: e in Under(b, key) <==> e in b && key <= e.key
  {
    if b != [] { UnderMembers(b[1..], key); }
  }

  /** No other key starts with this one. */
  predicate NothingElse(b: seq<Entry>, key: string) {
    forall d :: d in b && key <= d.key ==> d.key == key
  }

  /** What is selected, object by object: nothing if no key starts with the given one; the object itself if it has
      bytes or nothing else starts with its key; otherwise every object whose key starts with it. */
  lemma SelectedMeaning(b: seq<Entry>, key: string)
    requires Listing(b)
    ensures Selected(b, key).None? <==> forall e :: e in b ==> !(key <= e.key)
    ensures Selected(b, key).Some? ==>
              var sel := Selected(b, key).value;
              if exists e: Entry :: e in b && e.key == key && (e.size > 0 || NothingElse(b, key))
              then |sel| == 1 && sel[0] in b && sel[0].key == key
              else forall e :: e in sel <==> e in b && key <= e.key
  {
    UnderMembers(b, key);
    var under, length := Under(b, key), ContentLength(b, key);
    assert under == [] <==> forall e :: e in b ==> !(key <= e.key) by {
      if under != [] { assert under[0] in under; }
    }
    assert OnlyKey(under, key) <==> NothingElse(b, key) by {
      if !OnlyKey(under, key) {
        var i :| 0 <= i < |under| && under[i].key != key;
        assert under[i] in under;
      }
    }
    forall e | e in b && e.key == key ensures length == Some(e.size) { }
  }

  /** The totals of a list with one more object. */
  lemma {:induction false} TotalsSnoc(es: seq<Entry>, e: Entry)
    ensures Sum(es + [e]) == Sum(es) + e.size && Largest(es + [e]) == Max(Largest(es), e.size)
    ensures NonEmpty(es + [e]) == NonEmpty(es) + if e.size > 0 then 1 else 0
  {
    if es == [] {
      assert [] + [e] == [e] && [e][1..] == [];
    } else {
      assert (es + [e])[1..] == es[1..] + [e];
      TotalsSnoc(es[1..], e);
    }
  }

  /** The count is the number of objects with bytes, and the largest is one of them and bounds all. */
  lemma {:induction false} TotalsMeaning(es: seq<Entry>)
    ensures NonEmpty(es) == |set i | 0 <= i < |es| && es[i].size > 0|
    ensures forall e :: e in es ==> e.size <= Largest(es)
    ensures Largest(es) == 0 || exists e :: e in es && e.size == Largest(es)
  {
    if es != [] {
      var n := |es| - 1;
      TotalsMeaning(es[..n]);
      TotalsSnoc(es[..n], es[n]);
      assert es == es[..n] + [es[n]];
      var before, now := set i | 0 <= i < n && es[..n][i].size > 0, set i | 0 <= i < |es| && es[i].size > 0;
      assert now == before + if es[n].size > 0 then {n} else {};
    }
  }

  /** An empty object alone under its prefix: nothing else to add up. */
  lemma {:induction false} OnlyKeyTotals(es: seq<Entry>, key: string)
    requires OnlyKey(es, key) && forall i :: 0 <= i < |es| ==> es[i].size == 0
    ensures Sum(es) == 0 && Largest(es) == 0 && NonEmpty(es) == 0
  {
    if es != [] { OnlyKeyTotals(es[1..], key); }
  }

  lemma {:induction false} Bounds(es: seq<Entry>)
    ensures Largest(es) <= Sum(es) <= NonEmpty(es) * Largest(es)
  {
    if es != [] {
      Bounds(es[1..]);
      var n, m, m' := NonEmpty(es[1..]), Largest(es[1..]), Largest(es);
      assert n * m <= n * m' by { MulMonotone(n, m, m'); }
      assert (n + 1) * m' == n * m' + m';
    }
  }

  lemma MulMonotone(n: nat, a: nat, b: nat)
    requires a <= b
    ensures n * a <= n * b
  {
  }

  lemma UnderSplit(b: seq<Entry>, key: string, i: nat)
    requires i < |b|
    ensures var rest, here := Under(b[i + 1..], key), Under(b[i..], key);
            if key <= b[i].key
            then Sum(here) == b[i].size + Sum(rest) && Largest(here) == Max(b[i].size, Largest(rest))
                 && NonEmpty(here) == (if b[i].size > 0 then 1 else 0) + NonEmpty(rest)
            else here == rest
  {
    assert b[i..][1..] == b[i + 1..];
    var rest := Under(b[i + 1..], key);
    if key <= b[i].key { assert ([b[i]] + rest)[1..] == rest; }
  }

  /** `s3_estimate_size` as a loop.  For any fixed listing the estimate is the sum, count and maximum
      over the objects that `s3_to_s3` selects. */
  method EstimateSize(b: seq<Entry>, key: string) returns (r: SizeInfo)
    requires Listing(b)
    ensures var sel := if Selected(b, key).Some? then Selected(b, key).value else [];
            r == SizeInfo(Sum(sel), NonEmpty(sel), Largest(sel))
    ensures r.maxSize <= r.totalSize <= r.fileCount * r.maxSize
  {
    var length := ContentLength(b, key);
    UnderMembers(b, key);
    if length.Some? && length.value > 0 {
      assert Entry(key, length.value) in Under(b, key);
      assert Sum([Entry(key, length.value)]) == length.value;
      return SizeInfo(length.value, 1, length.value);
    }
    var cnt, total, largest := 0, 0, 0;
    assert b[0..] == b;
    for i := 0 to |b|
      invariant cnt + NonEmpty(Under(b[i..], key)) == NonEmpty(Under(b, key))
      invariant total + Sum(Under(b[i..], key)) == Sum(Under(b, key))
      invariant Max(largest, Largest(Under(b[i..], key))) == Largest(Under(b, key))
    {
      UnderSplit(b, key, i);
      assert Max(largest, Max(b[i].size, Largest(Under(b[i + 1..], key)))) ==
          Max(Max(largest, b[i].size), Largest(Under(b[i + 1..], key)));
      if key <= b[i].key && b[i].size != 0 {
        cnt := cnt + 1;
        total := total + b[i].size;
        largest := Max(largest, b[i].size);
      }
    }
    Bounds(Under(b, key));
    if length == Some(0) && OnlyKey(Under(b, key), key) {
      EmptyFileTotals(b, key);
    }
    r := SizeInfo(total, cnt, largest);
  }

  function Max(a: nat, b: nat): nat { if a < b then b else a }

  lemma EmptyFileTotals(b: seq<Entry>, key: string)
    requires Listing(b) && ContentLength(b, key) == Some(0) && OnlyKey(Under(b, key), key)
    ensures Sum(Under(b, key)) == 0 && Largest(Under(b, key)) == 0 && NonEmpty(Under(b, key)) == 0
  {
    UnderMembers(b, key);
    forall i | 0 <= i < |Under(b, key)| ensures Under(b, key)[i].size == 0 {
      assert Under(b, key)[i] in b && Entry(key, 0) in b;
    }
    OnlyKeyTotals(Under(b, key), key);
  }

  /** `s3_to_s3`: which objects are copied. */
  method SelectForTransfer(b: seq<Entry>, key: string) returns (r: Option<seq<Entry>>)
    ensures r == Selected(b, key)
  {
    var isFile := IsS3File(b, key);
    if isFile.None? {
      return None;
    }
    if isFile.value {
      var length := ContentLength(b, key);
      return Some([Entry(key, length.value)]);
    }
    r := Some(Under(b, key));
  }

  // ---------------------------------------------------------------- volume size, in exact arithmetic

  const BYTES_IN_MB := 1024 * 1024
  const VOLUME_SIZE_ALIGN := 4

  function CeilDiv(n: nat, d: nat): (r: nat)
    requires d > 0
    ensures n <= r * d < n + d
  {
    (n + d - 1) / d
  }

  function Align(n: nat, align: nat): nat
    requires align > 0
  {
    var r := n % align;
    if r != 0 then n + (align - r) else n
  }

  /** Ten times what is required: 1.2 of the largest file or 0.1 of the total, in MiB rounded up. */
  function RequiredTenths(info: SizeInfo): nat {
    Max(12 * CeilDiv(info.maxSize, BYTES_IN_MB), CeilDiv(info.totalSize, BYTES_IN_MB))
  }

  function VolumeSize(info: SizeInfo): nat {
    Align(CeilDiv(RequiredTenths(info), 10), VOLUME_SIZE_ALIGN)
  }

  /** The size in MiB, rounded up. */
  predicate InMebibytes(bytes: nat, mb: nat) {
    bytes <= mb * 1048576 && (mb > 0 ==> (mb - 1) * 1048576 < bytes)
  }

  /** With the largest file and the total in MiB, rounded up: the volume has the least multiple of 4 that is at least
      1.2 times the first and a tenth of the second.  The bytes requested with the decimal unit "M" are at least
      1.14 times the largest file. */
  lemma VolumeBounds(info: SizeInfo, maxMb: nat, totalMb: nat)
    requires InMebibytes(info.maxSize, maxMb) && InMebibytes(info.totalSize, totalMb)
    ensures var size := VolumeSize(info);
            && size % 4 == 0 && 12 * maxMb <= 10 * size && totalMb <= 10 * size
            && (10 * size < 12 * maxMb + 40 || 10 * size < totalMb + 40)
    ensures forall v: nat :: v % 4 == 0 && 12 * maxMb <= 10 * v && totalMb <= 10 * v ==> VolumeSize(info) <= v
    ensures 114 * info.maxSize <= 100 * (VolumeSize(info) * 1000000)
  {
    RoundedUp(info.maxSize, maxMb);
    RoundedUp(info.totalSize, totalMb);
    var tenths := Max(12 * maxMb, totalMb);
    assert RequiredTenths(info) == tenths;
    AlignBounds(CeilDiv(tenths, 10));
    forall v: nat | v % 4 == 0 && tenths <= 10 * v ensures VolumeSize(info) <= v {
      AlignLeast(CeilDiv(tenths, 10), v);
    }
    MegabytesCover(info.maxSize, maxMb, VolumeSize(info));
  }

  lemma RoundedUp(bytes: nat, mb: nat)
    requires InMebibytes(bytes, mb)
    ensures CeilDiv(bytes, BYTES_IN_MB) == mb
  {
  }

  lemma AlignBounds(n: nat)
    ensures Align(n, VOLUME_SIZE_ALIGN) % VOLUME_SIZE_ALIGN == 0
    ensures n <= Align(n, VOLUME_SIZE_ALIGN) <= n + 3
  {
  }

  lemma AlignLeast(n: nat, v: nat)
    requires n <= v && v % 4 == 0
    ensures Align(n, VOLUME_SIZE_ALIGN) <= v
  {
  }

  lemma MegabytesCover(bytes: nat, mb: nat, size: nat)
    requires bytes <= mb * 1048576 && 12 * mb <= 10 * size
    ensures 114 * bytes <= 100 * (size * 1000000)
  {
  }

  lemma CeilDivMonotone(a: nat, b: nat, d: nat)
    requires d > 0 && a <= b
    ensures CeilDiv(a, d) <= CeilDiv(b, d)
  {
    if CeilDiv(b, d) < CeilDiv(a, d) {
      MulMonotone(d, CeilDiv(b, d), CeilDiv(a, d) - 1);
    }
  }

  lemma AlignMonotone(a: nat, b: nat)
    requires a <= b
    ensures Align(a, VOLUME_SIZE_ALIGN) <= Align(b, VOLUME_SIZE_ALIGN)
  {
  }

  lemma VolumeMonotone(a: SizeInfo, b: SizeInfo)
    requires a.maxSize <= b.maxSize && a.totalSize <= b.totalSize
    ensures VolumeSize(a) <= VolumeSize(b)
  {
    CeilDivMonotone(a.maxSize, b.maxSize, BYTES_IN_MB);
    CeilDivMonotone(a.totalSize, b.totalSize, BYTES_IN_MB);
    CeilDivMonotone(RequiredTenths(a), RequiredTenths(b), 10);
    AlignMonotone(CeilDiv(RequiredTenths(a), 10), CeilDiv(RequiredTenths(b), 10));
  }
}
