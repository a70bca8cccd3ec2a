/** The chain-data policy at the top of the build: fetch and serialize unless
    the skip flag is set, then always read the snapshot back. */
module ChainData {

  import opened Wrappers
  import opened Values
  import opened Files
  import opened BuildErrors

  /** The chain-data snapshot store, taken to be one cache file written whole
      and read back whole (chaindata_db.js is not part of this model): the
      file's path and the codec between chain data and its text. */
  datatype Codec = Codec(cachePath: string, encode: Value -> string, decode: string -> Option<Value>)

  /** `process.env.SKIP_CHAIN_DATA_FETCH` used as a condition: any value but the
      empty string is truthy, so "0" and "false" skip too. */
  predicate SkipFetch(env: Option<string>) {
    env.Some? && env.value != ""
  }

  /** `deserializeChainData()`: read the snapshot file and parse it. */
  function Deserialize(t: Tree, codec: Codec): (r: Result<Value, BuildError>)
    ensures r.Err? ==> r.error.ReadFailed? || r.error.MalformedChainData?
    ensures r.Err? && r.error.ReadFailed? ==> Read(t, codec.cachePath).Err? && r.error.io == Read(t, codec.cachePath).error
    ensures r.Ok? ==> codec.cachePath in t.files && codec.decode(t.files[codec.cachePath]) == Some(r.value)
  {
    match Read(t, codec.cachePath)
    case Err(e) => Err(ReadFailed(e))
    case Ok(text) =>
      match codec.decode(text)
      case None => Err(MalformedChainData(codec.cachePath))
      case Some(v) => Ok(v)
  }

  /** The catch block: ENOENT while skipping becomes the dedicated diagnostic,
      every other failure propagates unchanged. */
  function Diagnose(r: Result<Value, BuildError>, skip: bool): (r': Result<Value, BuildError>)
    requires r.Err? ==> r.error.ReadFailed? || r.error.MalformedChainData?
    ensures r.Ok? ==> r' == r
    ensures r'.Err? && r'.error == ChainDataNotFound <==> r.Err? && skip && r.error.ReadFailed? && r.error.io.Enoent?
    ensures !(r'.Err? && r'.error == ChainDataNotFound) ==> r' == r
  {
    if r.Err? && r.error.ReadFailed? && r.error.io.Enoent? && skip then Err(ChainDataNotFound) else r
  }

  /** The file system after the chain-data chapter and the chain data it yields.
      `fetched` is what `fetch_chaindata(shows)` resolves to. */
  function ChainDataSpec(t: Tree, skip: bool, fetched: Value, codec: Codec): (res: (Tree, Result<Value, BuildError>))
    // skipping touches nothing; otherwise the fresh snapshot overwrites the cache file
    ensures skip ==> res.0 == t
    ensures !skip ==> res.0 == Write(t, codec.cachePath, codec.encode(fetched))
    // both paths read the snapshot back through deserialize
    ensures res.1 == Diagnose(Deserialize(res.0, codec), skip)
    // the dedicated error happens exactly when skipping without a cache file
    ensures (res.1.Err? && res.1.error == ChainDataNotFound) <==> skip && !Exists(t, codec.cachePath)
    // a codec that round-trips hands back exactly what was fetched
    ensures !skip && codec.decode(codec.encode(fetched)) == Some(fetched) ==> res.1 == Ok(fetched)
  {
    var t' := if skip then t else Write(t, codec.cachePath, codec.encode(fetched));
    (t', Diagnose(Deserialize(t', codec), skip))
  }

  /** With the skip flag the outcome does not depend on what a fetch would have returned. */
  lemma SkipIgnoresFetch(t: Tree, fetchedA: Value, fetchedB: Value, codec: Codec)
    ensures ChainDataSpec(t, true, fetchedA, codec) == ChainDataSpec(t, true, fetchedB, codec)
  {
  }

  /** Chapter one of the build (the chain-data block). */
  method LoadChainData(fs: FileStore, skipEnv: Option<string>, fetched: Value, codec: Codec)
    returns (r: Result<Value, BuildError>)
    modifies fs
    ensures (fs.State(), r) == ChainDataSpec(old(fs.State()), SkipFetch(skipEnv), fetched, codec)
  {
    var skip := SkipFetch(skipEnv);
    if !skip {
      fs.WriteFile(codec.cachePath, codec.encode(fetched));
    }
    var loaded := Deserialize(fs.State(), codec);
    if loaded.Err? && loaded.error.ReadFailed? && loaded.error.io.Enoent? && skip {
      return Err(ChainDataNotFound);
    }
    return loaded;
  }
}
