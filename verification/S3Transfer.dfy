/** Cached transfers into S3: tags and ETags decide what need not be uploaded. */
module S3Transfer {
  import opened Options
  import opened Digests

  /** A stored object; `parts` is the part size of a multipart upload, `tag` the MD5 tag. */
  datatype Obj = Obj(bytes: Bytes, parts: Option<nat>, tag: Option<Token>)

  type Store = map<string, Obj>

  predicate WellFormed(o: Obj) { o.parts.Some? ==> o.parts.value > 0 }

  /** The ETag that S3 reports: with a multipart upload it has a part count even for a single part. */
  function EtagOf(h: Hash, o: Obj): Token
    requires WellFormed(o)
  {
    match o.parts
    case None => Hex(h(o.bytes))
    case Some(size) => PartsEtag(h, o.bytes, size)
  }

  ghost function HashedFor(h: Hash, o: Obj): set<Bytes>
    requires WellFormed(o)
  {
    match o.parts
    case None => {o.bytes}
    case Some(size) => Hashed(h, o.bytes, size)
  }

  /** The MD5 tag of an object is the hash of its content. */
  predicate TagOk(h: Hash, o: Obj) {
    o.tag.Some? ==> o.tag.value == Hex(h(o.bytes))
  }

  predicate StoreOk(h: Hash, objs: Store) {
    forall k :: k in objs ==> WellFormed(objs[k]) && TagOk(h, objs[k])
  }

  /** Equal ETags mean equal content, for every part size on either side. */
  lemma SameEtagSameBytes(h: Hash, width: nat, data: Bytes, size: nat, o: Obj)
    requires size > 0 && WellFormed(o) && FixedWidth(h, width)
    requires CollisionFree(h, Hashed(h, data, size) + HashedFor(h, o))
    requires Etag(h, data, size) == EtagOf(h, o)
    ensures o.bytes == data
  {
    if o.parts.Some? {
      PartsEtagInjective(h, width, data, size, o.bytes, o.parts.value);
    }
  }

  lemma SameObjectEtagSameBytes(h: Hash, width: nat, a: Obj, b: Obj)
    requires WellFormed(a) && WellFormed(b) && FixedWidth(h, width)
    requires CollisionFree(h, HashedFor(h, a) + HashedFor(h, b))
    requires EtagOf(h, a) == EtagOf(h, b)
    ensures a.bytes == b.bytes
  {
    if a.parts.Some? {
      PartsEtagInjective(h, width, a.bytes, a.parts.value, b.bytes, b.parts.value);
    }
  }

  /** What `check_s3_for_md5` accepts: the tag if there is one, else the ETag. */
  predicate Md5Matches(h: Hash, o: Obj, md5: Token)
    requires WellFormed(o)
  {
    if o.tag.Some? then md5 == o.tag.value else md5 == EtagOf(h, o)
  }

  /** A tagged object is accepted under the MD5 of its content and nothing else, an untagged one under its ETag.  What
      is accepted is the MD5 of the content exactly when it is not a multipart ETag: passed as `md5`, the ETag of a
      multipart object is accepted although it is not a hash of the content. */
  lemma AcceptedMd5(h: Hash, o: Obj, md5: Token)
    requires WellFormed(o) && TagOk(h, o)
    ensures Md5Matches(h, o, md5) <==>
            md5 == if o.tag.Some? || o.parts.None? then Hex(h(o.bytes)) else PartsEtag(h, o.bytes, o.parts.value)
    ensures Md5Matches(h, o, md5) ==> (md5 == Hex(h(o.bytes)) <==> !md5.HexParts?)
  {
  }

  /** Which calls to S3 fail, and how the client library uploads. */
  datatype Network = Network(readable: bool, uploads: bool, tags: bool, partSize: Option<nat>)
  {
    predicate Good() { partSize.Some? ==> partSize.value > 0 }
  }

  datatype Outcome = Done | InvalidDigest | S3Error | DownloadError

  class Bucket {
    var objs: Store
    ghost var hist: seq<Store>      // every state of the store

    ghost predicate Valid(h: Hash)
      reads this
    {
      hist != [] && hist[|hist| - 1] == objs && forall k :: 0 <= k < |hist| ==> StoreOk(h, hist[k])
    }

    /** False also when the object cannot be read for any reason. */
    method CheckForEtag(h: Hash, net: Network, dst: string, etag: Token) returns (found: bool)
      requires Valid(h)
      ensures found <==> net.readable && dst in objs && EtagOf(h, objs[dst]) == etag
    {
      found := net.readable && dst in objs && EtagOf(h, objs[dst]) == etag;
    }

    method CheckForMd5(h: Hash, net: Network, dst: string, md5: Token) returns (found: bool)
      requires Valid(h)
      ensures found <==> net.readable && dst in objs && Md5Matches(h, objs[dst], md5)
    {
      if !net.readable || dst !in objs {
        return false;
      }
      if objs[dst].tag.Some? {
        return md5 == objs[dst].tag.value;
      }
      found := CheckForEtag(h, net, dst, md5);
    }

    /** An upload replaces the object and drops its tags. */
    method Upload(h: Hash, net: Network, data: Bytes, dst: string) returns (ok: bool)
      requires Valid(h) && net.Good()
      modifies this
      ensures Valid(h) && old(hist) <= hist
      ensures ok == net.uploads
      ensures objs == if ok then old(objs)[dst := Obj(data, net.partSize, None)] else old(objs)
    {
      ok := net.uploads;
      if ok {
        objs := objs[dst := Obj(data, net.partSize, None)];
        hist := hist + [objs];
      }
    }

    method UpdateTag(h: Hash, net: Network, dst: string, md5: Token) returns (ok: bool)
      requires Valid(h)
      requires dst in objs ==> md5 == Hex(h(objs[dst].bytes))
      modifies this
      ensures Valid(h) && old(hist) <= hist
      ensures ok == (net.tags && dst in old(objs))
      ensures objs == if ok then old(objs)[dst := old(objs)[dst].(tag := Some(md5))] else old(objs)
    {
      ok := net.tags && dst in objs;
      if ok {
        objs := objs[dst := objs[dst].(tag := Some(md5))];
        hist := hist + [objs];
      }
    }

    /** `transfer_to_s3`; `downloaded` is what the download delivers, if it succeeds.  An accepted MD5, a failed
        download and a wrong digest leave the store alone.  Otherwise an object with the computed ETag is tagged and
        kept, and any other is replaced and tagged.  In every state on the way the tags are right; on normal return
        the destination has the requested MD5 and the next call with it is content with the object. */
    method Transfer(h: Hash, width: nat, net: Network, downloaded: Option<Bytes>, dst: string, md5: Option<Token>)
        returns (r: Outcome)
      requires Valid(h) && FixedWidth(h, width) && net.Good()
      requires downloaded.Some? && dst in objs ==>
                 CollisionFree(h, Hashed(h, downloaded.value, S3_MAX_CHUNK_BYTES) + HashedFor(h, objs[dst]))
      modifies this
      ensures Valid(h) && old(hist) <= hist
      ensures forall k :: k != dst ==> (k in objs <==> k in old(objs)) && (k in objs ==> objs[k] == old(objs)[k])
      ensures r == Done ==> dst in objs
      ensures r == Done && md5.Some? ==> Md5Matches(h, objs[dst], md5.value)
      ensures r == Done && md5.Some? && !md5.value.HexParts? ==> md5.value == Hex(h(objs[dst].bytes))
      ensures r == Done && md5.None? ==> downloaded == Some(objs[dst].bytes)
      ensures r == Done ==>
                || objs == old(objs)
                || (downloaded == Some(objs[dst].bytes) && objs[dst].tag == Some(Hex(h(objs[dst].bytes))))
      ensures r == InvalidDigest || r == DownloadError ==> objs == old(objs) && hist == old(hist)
      ensures var accepted := md5.Some? && net.readable && dst in old(objs) && Md5Matches(h, old(objs)[dst], md5.value);
              && (accepted ==> r == Done && objs == old(objs))
              && (r == DownloadError <==> !accepted && downloaded.None?)
              && (r == InvalidDigest <==>
                  !accepted && downloaded.Some? && md5.Some? && md5.value != Hex(h(downloaded.value)))
              && (r == S3Error ==> !net.uploads || !net.tags)
              && (!accepted && downloaded.Some? && (md5.Some? ==> md5.value == Hex(h(downloaded.value))) ==>
                    var data, tag := downloaded.value, if net.tags then Some(Hex(h(downloaded.value))) else None;
                    if net.readable && dst in old(objs) &&
                       EtagOf(h, old(objs)[dst]) == Etag(h, data, S3_MAX_CHUNK_BYTES)
                    then && r == (if net.tags then Done else S3Error)
                         && old(objs)[dst].bytes == data
                         && objs == if net.tags then old(objs)[dst := old(objs)[dst].(tag := tag)] else old(objs)
                    else && r == (if net.uploads && net.tags then Done else S3Error)
                         && objs == if net.uploads then old(objs)[dst := Obj(data, net.partSize, tag)] else old(objs))
    {
      if md5.Some? {
        var found := CheckForMd5(h, net, dst, md5.value);
        if found {
          AcceptedMd5(h, objs[dst], md5.value);
          return Done;
        }
      }
      if downloaded.None? {
        return DownloadError;
      }
      var data := downloaded.value;
      var pair := CalculateMd5AndEtag(h, data, S3_MAX_CHUNK_BYTES);
      if md5.Some? && pair.md5 != md5.value {
        return InvalidDigest;
      }
      var same := CheckForEtag(h, net, dst, pair.s3Etag);
      if same {
        SameEtagSameBytes(h, width, data, S3_MAX_CHUNK_BYTES, objs[dst]);
      } else {
        var uploaded := Upload(h, net, data, dst);
        if !uploaded {
          return S3Error;
        }
      }
      var tagged := UpdateTag(h, net, dst, pair.md5);
      r := if tagged then Done else S3Error;
    }

    /** Called with the ETag of an untagged multipart object as MD5, the transfer is content with that object,
        although its MD5 is another one. */
    method TransferOwnEtag(h: Hash, width: nat, net: Network, downloaded: Option<Bytes>, dst: string)
        returns (r: Outcome)
      requires Valid(h) && FixedWidth(h, width) && net.Good() && net.readable
      requires dst in objs && objs[dst].parts.Some? && objs[dst].tag.None?
      requires downloaded.Some? ==> CollisionFree(h,
              Hashed(h, downloaded.value, S3_MAX_CHUNK_BYTES) + HashedFor(h, objs[dst]))
      modifies this
      ensures Valid(h) && r == Done && objs == old(objs)
      ensures EtagOf(h, objs[dst]) != Hex(h(objs[dst].bytes))
    {
      r := Transfer(h, width, net, downloaded, dst, Some(EtagOf(h, objs[dst])));
    }

    /** `_s3_to_s3_check_etag`: copy unless the ETags agree; afterwards the contents agree, or there is no source or
        the copy failed, and nothing changed.  A copy may or may not carry the tags over. */
    method CopyCheckEtag(h: Hash, width: nat, net: Network, keepTags: bool, src: string, dst: string) returns (ok: bool)
      requires Valid(h) && FixedWidth(h, width) && net.Good()
      requires src in objs && dst in objs ==> CollisionFree(h, HashedFor(h, objs[src]) + HashedFor(h, objs[dst]))
      modifies this
      ensures Valid(h) && old(hist) <= hist
      ensures ok <==> src in old(objs) &&
                      (net.uploads || (net.readable && dst in old(objs) &&
                          EtagOf(h, old(objs)[src]) == EtagOf(h, old(objs)[dst])))
      ensures ok ==> dst in objs && objs[dst].bytes == old(objs)[src].bytes
      ensures !ok ==> objs == old(objs)
      ensures ok ==>
                var kept := net.readable && dst in old(objs) && EtagOf(h, old(objs)[src]) == EtagOf(h, old(objs)[dst]);
                var tag := if keepTags then old(objs)[src].tag else None;
                objs == if kept then old(objs) else old(objs)[dst := Obj(old(objs)[src].bytes, net.partSize, tag)]
      ensures forall k :: k != dst ==> (k in objs <==> k in old(objs)) && (k in objs ==> objs[k] == old(objs)[k])
    {
      if src !in objs {
        return false;
      }
      if net.readable && dst in objs && EtagOf(h, objs[src]) == EtagOf(h, objs[dst]) {
        SameObjectEtagSameBytes(h, width, objs[src], objs[dst]);
        return true;
      }
      if !net.uploads {
        return false;
      }
      objs := objs[dst := Obj(objs[src].bytes, net.partSize, if keepTags then objs[src].tag else None)];
      hist := hist + [objs];
      ok := true;
    }
  }
}
