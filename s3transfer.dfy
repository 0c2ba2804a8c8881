// Copying one object into an S3 bucket: the payload is read from the source
// (a local file or another S3 object), put under the destination key, the
// two sizes are compared, and only then is the source deleted.
//
// The local filesystem and the object store are the maps of a `Storage`;
// the byte count the store reports for a put is a parameter.

module S3Transfer {
  import opened Wrappers

  /** A connection configuration; `callingFormat` stands for boto's
      OrdinaryCallingFormat object. */
  datatype S3Config = S3Config(profileName: string, host: string, port: int, isSecure: bool, callingFormat: string)

  const DEFAULT_CONFIG := S3Config("default", "localhost", 8080, false, "OrdinaryCallingFormat")

  /** s3_connect's configuration: a copy of the default with the host, port
      and profile replaced. */
  function ConnectConfig(host: string, port: int, profileName: string): (r: S3Config)
    ensures r.host == host && r.port == port && r.profileName == profileName
    ensures r.isSecure == DEFAULT_CONFIG.isSecure && r.callingFormat == DEFAULT_CONFIG.callingFormat
  {
    DEFAULT_CONFIG.(host := host, port := port, profileName := profileName)
  }

  /** Connecting with the default's own settings gives the default. */
  lemma ConnectDefault()
    ensures ConnectConfig("localhost", 8080, "default") == DEFAULT_CONFIG
  {
  }

  /** What the canonical-user-id probe of s3_connect gives. */
  datatype Probe = Reachable | SocketError | S3ResponseError(code: string)

  /** s3_connect: the connection on success; a response error is re-raised;
      the socket-error handler formats its message with the name `e`, which
      that clause does not bind, so it raises NameError instead. */
  function Connect(host: string, port: int, profileName: string, probe: Probe): (r: Result<S3Config>)
    ensures r.Ok? <==> probe == Reachable
    ensures r.Ok? ==> r.value == ConnectConfig(host, port, profileName)
    ensures probe == SocketError ==> r == Err("NameError: global name 'e' is not defined")
    ensures probe.S3ResponseError? ==> r == Err("S3ResponseError: " + probe.code)
  {
    match probe
    case Reachable => Ok(ConnectConfig(host, port, profileName))
    case SocketError => Err("NameError: global name 'e' is not defined")
    case S3ResponseError(code) => Err("S3ResponseError: " + code)
  }

  /** The source of a transfer. */
  datatype Source = LocalFile(name: string) | S3Object(bucket: string, key: string)

  /** The local files and the objects of every bucket. */
  datatype World = World(files: map<string, string>, objects: map<(string, string), string>)

  /** _upload: the payload, or the error reading it raises. */
  function Payload(w: World, src: Source): (r: Result<string>)
    ensures r.Ok? <==> (src.LocalFile? && src.name in w.files) || (src.S3Object? && (src.bucket, src.key) in w.objects)
    ensures r.Ok? && src.LocalFile? ==> r.value == w.files[src.name]
    ensures r.Ok? && src.S3Object? ==> r.value == w.objects[(src.bucket, src.key)]
  {
    match src
    case LocalFile(name) =>
      if name in w.files then Ok(w.files[name]) else Err("IOError: No such file or directory: " + name)
    case S3Object(b, k) =>
      if (b, k) in w.objects then Ok(w.objects[(b, k)]) else Err("S3ResponseError: NoSuchKey")
  }

  /** _delete. */
  function Delete(w: World, src: Source): (r: World)
    ensures src.LocalFile? ==> r.files == w.files - {src.name} && r.objects == w.objects
    ensures src.S3Object? ==> r.objects == w.objects - {(src.bucket, src.key)} && r.files == w.files
  {
    match src
    case LocalFile(name) => w.(files := w.files - {name})
    case S3Object(b, k) => w.(objects := w.objects - {(b, k)})
  }

  /** The sizes _check accepts: both set, non-zero and equal. */
  predicate SizesAgree(payloadSize: Option<int>, sinkSize: Option<int>)
  {
    payloadSize.Some? && sinkSize.Some? && payloadSize.value != 0 && sinkSize.value != 0 &&
    sinkSize.value == payloadSize.value
  }

  const FORMAT_NONE := "TypeError: %d format: a number is required, not NoneType"

  /** _check: True when the sizes agree; otherwise the S3TransferError,
      whose message formats the sizes with %d, so a size that is None raises
      TypeError instead. */
  function Check(payloadSize: Option<int>, sinkSize: Option<int>): (r: Result<bool>)
    ensures r.Ok? <==> SizesAgree(payloadSize, sinkSize)
    ensures r.Ok? ==> r.value
    ensures r.Err? && payloadSize.Some? && sinkSize.Some? ==> r.error != FORMAT_NONE
    ensures (payloadSize.None? || sinkSize.None?) ==> r == Err(FORMAT_NONE)
  {
    if SizesAgree(payloadSize, sinkSize) then Ok(true)
    else if payloadSize.None? || sinkSize.None? then Err(FORMAT_NONE)
    else Err("S3TransferError: size mismatch")
  }

  /** transfer on a world: read, put, check, delete; `written` is the byte
      count the store reports for the put. */
  function TransferSpec(w: World, src: Source, bucket: string, keyname: string, written: Option<int>): (r: (World, Result<bool>))
  {
    var p := Payload(w, src);
    if p.Err? then (w, Err(p.error))
    else
      var put := w.(objects := w.objects[(bucket, keyname) := p.value]);
      var c := Check(Some(|p.value|), written);
      if c.Err? then (put, Err(c.error)) else (Delete(put, src), Ok(true))
  }

  /** Deletion only after a successful copy: the transfer succeeds iff the
      source can be read and the store reports exactly its size (non-zero);
      then the destination holds the payload and the source is gone, and
      otherwise the source is untouched. */
  lemma TransferDeletesOnlyAfterCheck(w: World, src: Source, bucket: string, keyname: string, written: Option<int>)
    ensures var (w', r) := TransferSpec(w, src, bucket, keyname, written);
      var p := Payload(w, src);
      (r.Ok? <==> p.Ok? && SizesAgree(Some(|p.value|), written)) &&
      (r.Ok? ==> (src.LocalFile? ==> w'.objects[(bucket, keyname)] == p.value && src.name !in w'.files)) &&
      (r.Ok? && src.S3Object? && (src.bucket, src.key) != (bucket, keyname) ==>
         w'.objects[(bucket, keyname)] == p.value && (src.bucket, src.key) !in w'.objects) &&
      (r.Err? ==> (w'.files == w.files &&
         forall k :: k in w.objects && k != (bucket, keyname) ==> k in w'.objects && w'.objects[k] == w.objects[k]))
  {
  }

  /** An S3 object copied onto its own key is put and then deleted: the
      source guards no such case. */
  lemma SelfCopyDeletes(w: World, bucket: string, keyname: string)
    requires (bucket, keyname) in w.objects && |w.objects[(bucket, keyname)]| > 0
    ensures var (w', r) := TransferSpec(w, S3Object(bucket, keyname), bucket, keyname, Some(|w.objects[(bucket, keyname)]|));
      r == Ok(true) && (bucket, keyname) !in w'.objects
  {
  }

  /** The transfer as written: _put asks the bucket for a key named by the
      global `keyname`, which the constructor never stored and the module
      does not define, so after the read it raises NameError. */
  function TransferAsWritten(w: World, src: Source, bucket: string, keyname: string, written: Option<int>): (r: (World, Result<bool>))
    ensures r.0 == w
  {
    var p := Payload(w, src);
    if p.Err? then (w, Err(p.error))
    else (w, Err("NameError: global name 'keyname' is not defined"))
  }

  /** As written, no transfer ever succeeds, and no source is ever deleted. */
  lemma TransferAsWrittenFails(w: World, src: Source, bucket: string, keyname: string, written: Option<int>)
    requires src.LocalFile? && src.name in w.files && written == Some(|w.files[src.name]|) && |w.files[src.name]| > 0
    ensures TransferAsWritten(w, src, bucket, keyname, written).1.Err?
    ensures TransferSpec(w, src, bucket, keyname, written).1 == Ok(true)
    ensures src.name in TransferAsWritten(w, src, bucket, keyname, written).0.files
  {
  }

  /** Both storages, updated in place by transfers. */
  class Storage {
    var files: map<string, string>
    var objects: map<(string, string), string>

    constructor (files: map<string, string>, objects: map<(string, string), string>)
      ensures this.files == files && this.objects == objects
    {
      this.files := files;
      this.objects := objects;
    }

    function Contents(): World
      reads this
    {
      World(files, objects)
    }
  }

  /** One transfer, with the destination key stored by the constructor. */
  class S3Transferer {
    const source: Source
    const bucket: string
    const keyname: string
    var payloadSize: Option<int>
    var sinkSize: Option<int>

    constructor (source: Source, bucket: string, keyname: string)
      ensures this.source == source && this.bucket == bucket && this.keyname == keyname
      ensures payloadSize.None? && sinkSize.None?
    {
      this.source := source;
      this.bucket := bucket;
      this.keyname := keyname;
      payloadSize := None;
      sinkSize := None;
    }

    /** _put: store the payload under the key and record both sizes. */
    method Put(st: Storage, payload: string, written: Option<int>)
      modifies this, st
      ensures st.objects == old(st.objects)[(bucket, keyname) := payload] && st.files == old(st.files)
      ensures payloadSize == Some(|payload|) && sinkSize == written
    {
      st.objects := st.objects[(bucket, keyname) := payload];
      payloadSize := Some(|payload|);
      sinkSize := written;
    }

    /** transfer: read, put, check, and delete the source only when the check
        passed. */
    method Transfer(st: Storage, written: Option<int>) returns (r: Result<bool>)
      modifies this, st
      ensures (st.Contents(), r) == TransferSpec(old(st.Contents()), source, bucket, keyname, written)
    {
      var p := Payload(st.Contents(), source);
      if p.Err? {
        return Err(p.error);
      }
      Put(st, p.value, written);
      var c := Check(payloadSize, sinkSize);
      if c.Err? {
        return Err(c.error);
      }
      var w := Delete(st.Contents(), source);
      st.files := w.files;
      st.objects := w.objects;
      r := Ok(true);
    }
  }
}
