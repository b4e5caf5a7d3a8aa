/** The object database's three kinds of object and their raw payloads.

    libgit2 names an object by the SHA-1 of its kind and raw payload. The model keeps what
    the code relies on, that the name is an injective function of (kind, payload), by taking
    the pair itself as the name. A commit's payload embeds its parents' names, so every
    parent's name is strictly shorter than its child's: a walk along parents always ends,
    whatever the store holds.

    The payload layout is this model's own (libgit2's text format is not part of it): every
    field is a base-128 length or number followed by its bytes. */
module Objects {
  import opened Wrappers
  import opened Bytes

  datatype Kind = BlobKind | TreeKind | CommitKind

  /** The name of an object: its kind and raw payload (see the module comment). */
  datatype Oid = Oid(kind: Kind, data: seq<byte>)

  /** What `repo.write(data, type)` returns for a payload. */
  function Hash(kind: Kind, data: seq<byte>): Oid
  {
    Oid(kind, data)
  }

  datatype Signature = Signature(name: seq<byte>, email: seq<byte>)

  /** One tree entry: a file name and the object it names. */
  datatype Entry = Entry(name: seq<byte>, oid: Oid)

  /** A decoded commit: its tree, its ordered parents, author, message and commit time. */
  datatype Commit = Commit(tree: Oid, parents: seq<Oid>, author: Signature, message: seq<byte>, time: nat)

  function KindByte(k: Kind): byte
  {
    match k
    case BlobKind => 1
    case TreeKind => 2
    case CommitKind => 3
  }

  function KindOfByte(b: byte): (r: Option<Kind>)
    ensures r.Some? ==> KindByte(r.value) == b
  {
    if b == 1 then Some(BlobKind)
    else if b == 2 then Some(TreeKind)
    else if b == 3 then Some(CommitKind)
    else None
  }

  function EncodeOid(o: Oid): seq<byte>
  {
    [KindByte(o.kind)] + EncodeField(o.data)
  }

  function DecodeOid(s: seq<byte>): (r: Option<(Oid, seq<byte>)>)
    ensures r.Some? ==> |r.value.0.data| < |s| && |r.value.1| < |s|
  {
    if |s| == 0 then None
    else
      var k :- KindOfByte(s[0]);
      var f :- DecodeField(s[1..]);
      Some((Oid(k, f.0), f.1))
  }

  lemma DecodeEncodeOid(o: Oid, rest: seq<byte>)
    ensures DecodeOid(EncodeOid(o) + rest) == Some((o, rest))
  {
    var s := EncodeOid(o) + rest;
    assert s[1..] == EncodeField(o.data) + rest;
    DecodeEncodeField(o.data, rest);
  }

  /** The names in `os`, one after the other (the count is written separately). */
  function EncodeOids(os: seq<Oid>): seq<byte>
  {
    if |os| == 0 then [] else EncodeOid(os[0]) + EncodeOids(os[1..])
  }

  function DecodeOids(n: nat, s: seq<byte>): (r: Option<(seq<Oid>, seq<byte>)>)
    ensures r.Some? ==> |r.value.0| == n && |r.value.1| <= |s|
    ensures r.Some? ==> forall o :: o in r.value.0 ==> |o.data| < |s|
  {
    if n == 0 then Some(([], s))
    else
      var h :- DecodeOid(s);
      var t :- DecodeOids(n - 1, h.1);
      Some(([h.0] + t.0, t.1))
  }

  lemma {:induction false} DecodeEncodeOids(os: seq<Oid>, rest: seq<byte>)
    ensures DecodeOids(|os|, EncodeOids(os) + rest) == Some((os, rest))
  {
    if |os| > 0 {
      assert EncodeOids(os) + rest == EncodeOid(os[0]) + (EncodeOids(os[1..]) + rest);
      DecodeEncodeOid(os[0], EncodeOids(os[1..]) + rest);
      DecodeEncodeOids(os[1..], rest);
      assert [os[0]] + os[1..] == os;
    } else {
      assert EncodeOids(os) + rest == rest;
    }
  }

  function EncodeEntries(es: seq<Entry>): seq<byte>
  {
    if |es| == 0 then [] else EncodeField(es[0].name) + (EncodeOid(es[0].oid) + EncodeEntries(es[1..]))
  }

  function DecodeEntries(n: nat, s: seq<byte>): (r: Option<(seq<Entry>, seq<byte>)>)
    ensures r.Some? ==> |r.value.0| == n
  {
    if n == 0 then Some(([], s))
    else
      var name :- DecodeField(s);
      var o :- DecodeOid(name.1);
      var t :- DecodeEntries(n - 1, o.1);
      Some(([Entry(name.0, o.0)] + t.0, t.1))
  }

  lemma {:induction false} DecodeEncodeEntries(es: seq<Entry>, rest: seq<byte>)
    ensures DecodeEntries(|es|, EncodeEntries(es) + rest) == Some((es, rest))
  {
    if |es| > 0 {
      var tail := EncodeEntries(es[1..]) + rest;
      assert EncodeEntries(es) + rest == EncodeField(es[0].name) + (EncodeOid(es[0].oid) + tail);
      DecodeEncodeField(es[0].name, EncodeOid(es[0].oid) + tail);
      DecodeEncodeOid(es[0].oid, tail);
      DecodeEncodeEntries(es[1..], rest);
      assert [es[0]] + es[1..] == es;
    } else {
      assert EncodeEntries(es) + rest == rest;
    }
  }

  /** The payload of a tree object. */
  function EncodeTree(es: seq<Entry>): seq<byte>
  {
    EncodeNat(|es|) + EncodeEntries(es)
  }

  /** Parses a tree payload; None for a payload that is not exactly one tree. */
  function ParseTree(data: seq<byte>): Option<seq<Entry>>
  {
    var n :- DecodeNat(data);
    var es :- DecodeEntries(n.0, n.1);
    if es.1 == [] then Some(es.0) else None
  }

  lemma ParseEncodeTree(es: seq<Entry>)
    ensures ParseTree(EncodeTree(es)) == Some(es)
  {
    DecodeEncodeNat(|es|, EncodeEntries(es));
    DecodeEncodeEntries(es, []);
    assert EncodeEntries(es) + [] == EncodeEntries(es);
  }

  /** The payload of a commit object. */
  function EncodeCommit(c: Commit): seq<byte>
  {
    EncodeOid(c.tree) + (EncodeNat(|c.parents|) + (EncodeOids(c.parents) +
      (EncodeField(c.author.name) + (EncodeField(c.author.email) +
      (EncodeField(c.message) + EncodeNat(c.time))))))
  }

  /** Parses a commit payload; None for a payload that is not exactly one commit. */
  function ParseCommit(data: seq<byte>): Option<Commit>
  {
    var t :- DecodeOid(data);
    var n :- DecodeNat(t.1);
    var ps :- DecodeOids(n.0, n.1);
    var an :- DecodeField(ps.1);
    var ae :- DecodeField(an.1);
    var msg :- DecodeField(ae.1);
    var time :- DecodeNat(msg.1);
    if time.1 == [] then Some(Commit(t.0, ps.0, Signature(an.0, ae.0), msg.0, time.0)) else None
  }

  lemma ParseEncodeCommit(c: Commit)
    ensures ParseCommit(EncodeCommit(c)) == Some(c)
  {
    var r6 := EncodeNat(c.time);
    var r5 := EncodeField(c.message) + r6;
    var r4 := EncodeField(c.author.email) + r5;
    var r3 := EncodeField(c.author.name) + r4;
    var r2 := EncodeOids(c.parents) + r3;
    var r1 := EncodeNat(|c.parents|) + r2;
    DecodeEncodeOid(c.tree, r1);
    DecodeEncodeNat(|c.parents|, r2);
    DecodeEncodeOids(c.parents, r3);
    DecodeEncodeField(c.author.name, r4);
    DecodeEncodeField(c.author.email, r5);
    DecodeEncodeField(c.message, r6);
    DecodeEncodeNat(c.time, []);
    assert r6 + [] == r6;
  }
}
