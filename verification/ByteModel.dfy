/** Digests, envelope encryption and container packaging, as any functions that obey their
    laws: every result holds for every hash, cipher and container format of this kind. */
module ByteModel {
  import opened Types

  // hash: the canonical digest, base64(SHA-256). seal and open: AES-GCM under a data key.
  // wrap and unwrap: the data key under the master key, base64.
  datatype Crypto = Crypto(
    hash: Bytes -> string,
    seal: (Bytes, Bytes, Bytes) -> Bytes,
    open: (Bytes, Bytes) -> Option<Bytes>,
    wrap: (Bytes, Bytes) -> string,
    unwrap: string -> Option<Bytes>)
  {
    // The digest is taken to be injective, opening undoes sealing, unwrapping undoes wrapping.
    ghost predicate Lawful() {
      && (forall a, b :: hash(a) == hash(b) ==> a == b)
      && (forall key, nonce, plain :: open(key, seal(key, nonce, plain)) == Some(plain))
      && (forall key, nonce :: unwrap(wrap(key, nonce)) == Some(key) && wrap(key, nonce) != "")
    }

    // What an object holds for whoever has its wrapped key.
    function Plain(object_: Bytes, keyRef: string): Option<Bytes> {
      var key := unwrap(keyRef);
      if key.None? then None else open(key.value, object_)
    }
  }

  // A file inside a container.
  datatype File = File(name: string, data: Bytes)

  datatype Packaging = Packaging(
    inspect: Bytes -> Option<seq<ManifestFile>>,
    dataObjects: Bytes -> Option<seq<File>>,
    signatures: Bytes -> set<Bytes>,
    buildUnsigned: seq<File> -> Option<Bytes>,
    complete: (Bytes, seq<File>) -> Option<Bytes>,
    coSign: (Bytes, Bytes) -> Option<Bytes>,
    addSignature: (Bytes, Bytes) -> Option<Bytes>)
  {
    // What each operation keeps of what it is given, whenever it succeeds.
    ghost predicate Lawful() {
      && (forall files :: buildUnsigned(files).Some? ==> dataObjects(buildUnsigned(files).value) == Some(files))
      && (forall fileless, files :: complete(fileless, files).Some? ==>
            && dataObjects(complete(fileless, files).value) == Some(files)
            && signatures(fileless) <= signatures(complete(fileless, files).value))
      && (forall container, fileless :: coSign(container, fileless).Some? ==>
            && dataObjects(coSign(container, fileless).value) == dataObjects(container)
            && signatures(container) + signatures(fileless) <= signatures(coSign(container, fileless).value))
      && (forall container, signature :: addSignature(container, signature).Some? ==>
            && dataObjects(addSignature(container, signature).value) == dataObjects(container)
            && signatures(container) + signatures(signature) <= signatures(addSignature(container, signature).value))
    }
  }

  // What one sealed write draws at random.
  datatype Draw = Draw(objKey: Id, dataKey: Bytes, sealNonce: Bytes, wrapNonce: Bytes)

  function Sealed(c: Crypto, draw: Draw, data: Bytes): Bytes { c.seal(draw.dataKey, draw.sealNonce, data) }

  function KeyRef(c: Crypto, draw: Draw): string { c.wrap(draw.dataKey, draw.wrapNonce) }

  // The object opens to bytes with this digest and size.
  ghost predicate Opens(c: Crypto, object_: Bytes, keyRef: string, hash: string, size: nat) {
    && keyRef != ""
    && c.Plain(object_, keyRef).Some?
    && c.hash(c.Plain(object_, keyRef).value) == hash
    && |c.Plain(object_, keyRef).value| == size
  }

  lemma SealedOpens(c: Crypto, draw: Draw, data: Bytes)
    requires c.Lawful()
    ensures c.Plain(Sealed(c, draw, data), KeyRef(c, draw)) == Some(data)
    ensures Opens(c, Sealed(c, draw, data), KeyRef(c, draw), c.hash(data), |data|)
  {}

  // Octets as text and back, for a digest and a key wrap that lose nothing.
  function AsText(b: Bytes): (t: string)
    ensures |t| == |b| + 1 && t[0] == '#' && forall i | 0 <= i < |b| :: t[i + 1] == b[i] as char
  {
    "#" + seq(|b|, i requires 0 <= i < |b| => b[i] as char)
  }

  function AsBytes(t: string): Option<Bytes> {
    if t != "" && forall i | 0 < i < |t| :: t[i] as int < 256 then
      Some(seq(|t| - 1, i requires 0 <= i < |t| - 1 && t[i + 1] as int < 256 => t[i + 1] as int))
    else None
  }

  lemma TextRoundTrip(b: Bytes)
    ensures AsBytes(AsText(b)) == Some(b)
  {
    var t := AsText(b);
    assert forall i | 0 < i < |t| :: t[i] == b[i - 1] as char;
    assert AsBytes(t).value == b;
  }

  // A cipher that stores what it is given, under a wrap and a digest that lose nothing.
  const PLAIN: Crypto :=
    Crypto(b => AsText(b), (k, n, p) => p, (k, o) => Some(o), (k, n) => AsText(k), t => AsBytes(t))

  /** The laws of digest and cipher can be met. */
  lemma PlainIsLawful()
    ensures PLAIN.Lawful()
  {
    var c := PLAIN;
    forall a ensures AsBytes(AsText(a)) == Some(a) {
      TextRoundTrip(a);
    }
    forall a, b | c.hash(a) == c.hash(b) ensures a == b {
      assert AsBytes(AsText(a)) == AsBytes(AsText(b));
    }
  }

  // A container format for one file: how many signatures, one octet for each, the file.
  predicate IsBox(b: Bytes) { b != [] && b[0] < |b| }

  function Marks(b: Bytes): Bytes
    requires IsBox(b)
  {
    b[1..1 + b[0]]
  }

  function Inner(b: Bytes): Bytes
    requires IsBox(b)
  {
    b[1 + b[0]..]
  }

  function Box(marks: Bytes, data: Bytes): (r: Option<Bytes>)
    ensures r.Some? <==> |marks| < 256
    ensures r.Some? ==> IsBox(r.value) && Marks(r.value) == marks && Inner(r.value) == data
  {
    if |marks| < 256 then
      var b: Bytes := [|marks|] + marks + data;
      assert b[1..1 + |marks|] == marks && b[1 + |marks|..] == data;
      Some(b)
    else None
  }

  function BoxSignatures(b: Bytes): set<Bytes> { if IsBox(b) then set m | m in Marks(b) :: [m] else {} }

  function BoxObjects(b: Bytes): Option<seq<File>> { if IsBox(b) then Some([File("f", Inner(b))]) else None }

  function BoxOf(marks: Bytes, files: seq<File>): Option<Bytes> {
    if |files| == 1 && files[0].name == "f" then Box(marks, files[0].data) else None
  }

  function CompleteBox(fileless: Bytes, files: seq<File>): Option<Bytes> {
    if IsBox(fileless) then BoxOf(Marks(fileless), files) else None
  }

  function MergeBoxes(container: Bytes, fileless: Bytes): Option<Bytes> {
    if IsBox(container) && IsBox(fileless) then Box(Marks(container) + Marks(fileless), Inner(container)) else None
  }

  const BOXES: Packaging := Packaging.Packaging(
    b => if IsBox(b) then Some([ManifestFile("f", "", |Inner(b)|)]) else None,
    b => BoxObjects(b),
    b => BoxSignatures(b),
    files => BoxOf([], files),
    (fileless, files) => CompleteBox(fileless, files),
    (container, fileless) => MergeBoxes(container, fileless),
    (container, signature) => MergeBoxes(container, signature))

  lemma MergedBoxKeeps(container: Bytes, fileless: Bytes)
    requires MergeBoxes(container, fileless).Some?
    ensures var r := MergeBoxes(container, fileless).value;
            BoxObjects(r) == BoxObjects(container) && BoxSignatures(container) + BoxSignatures(fileless) <= BoxSignatures(r)
  {}

  lemma CompletedBoxKeeps(fileless: Bytes, files: seq<File>)
    requires CompleteBox(fileless, files).Some?
    ensures var r := CompleteBox(fileless, files).value;
            BoxObjects(r) == Some(files) && BoxSignatures(fileless) <= BoxSignatures(r)
  {
    assert files == [File("f", files[0].data)];
  }

  lemma UnsignedBoxKeeps(files: seq<File>)
    requires BoxOf([], files).Some?
    ensures BoxObjects(BoxOf([], files).value) == Some(files)
  {
    assert files == [File("f", files[0].data)];
  }

  /** The laws of packaging can be met by a format whose operations succeed. */
  lemma BoxesAreLawful()
    ensures BOXES.Lawful()
  {
    forall files | BoxOf([], files).Some? ensures BoxObjects(BoxOf([], files).value) == Some(files) {
      UnsignedBoxKeeps(files);
    }
    forall fileless, files | CompleteBox(fileless, files).Some?
      ensures BoxObjects(CompleteBox(fileless, files).value) == Some(files)
      ensures BoxSignatures(fileless) <= BoxSignatures(CompleteBox(fileless, files).value)
    {
      CompletedBoxKeeps(fileless, files);
    }
    forall container, fileless | MergeBoxes(container, fileless).Some?
      ensures BoxObjects(MergeBoxes(container, fileless).value) == BoxObjects(container)
      ensures BoxSignatures(container) + BoxSignatures(fileless) <= BoxSignatures(MergeBoxes(container, fileless).value)
    {
      MergedBoxKeeps(container, fileless);
    }
  }

  const FIRST: Bytes := [1, 7]
  const SECOND: Bytes := [1, 8]

  /** Any file can be completed with a first signature, and a second one then added that was
      not there before. */
  lemma BoxesTakeTwoSignatures(data: Bytes)
    ensures BOXES.complete(FIRST, [File("f", data)]).Some?
    ensures var one := BOXES.complete(FIRST, [File("f", data)]).value;
            && BOXES.addSignature(one, SECOND).Some?
            && [8] !in BOXES.signatures(one) && [8] in BOXES.signatures(BOXES.addSignature(one, SECOND).value)
  {
    assert Marks(FIRST) == [7] && Marks(SECOND) == [8];
    var one := CompleteBox(FIRST, [File("f", data)]).value;
    assert Marks(one) == [7];
    var both := MergeBoxes(one, SECOND).value;
    assert Marks(both) == [7, 8];
    assert 8 in Marks(both);
  }
}
