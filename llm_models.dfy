/** The model catalog: entries loaded from a JSON list, API keys decrypted after load,
    lookup by name with a configurable default name. The cryptographic primitives (base64,
    AES-CBC with PKCS7 padding, UTF-8) are supplied as a `Crypto` value of functions. */
module LlmModels {
  import opened Wrappers

  type Env = map<string, string>

  type Bytes = seq<bv8>

  /** One catalog entry; the optional fields are the keys an entry may lack. */
  datatype ModelEntry = ModelEntry(
    name: string,
    endpoint: string,
    apiKeyEnv: Option<string>,
    service: Option<string>,
    encryptedApiKey: Option<string>,
    apiKey: Option<string>)

  const DefaultModelVar: string := "DEFAULT_LLM_MODEL"
  const FallbackModelName: string := "gpt-3.5-turbo"
  const DecryptKeyVar: string := "LLM_MODEL_DECRYPT_KEY"

  /** The default model name: the `DEFAULT_LLM_MODEL` variable when set, else `gpt-3.5-turbo`. */
  function DefaultModelName(env: Env): string {
    if DefaultModelVar in env then env[DefaultModelVar] else FallbackModelName
  }

  /** The library calls the key handling relies on. `aesCbcDecrypt(key, iv, ct)` stands for
      decryption, unpadding and UTF-8 decoding together and fails when any of them fails;
      `aesCbcEncrypt(key, iv, text)` for encoding, padding and encryption, failing on an
      unusable key or IV. */
  datatype Crypto = Crypto(
    b64decode: string -> Option<Bytes>,
    b64encode: Bytes -> string,
    aesCbcDecrypt: (Bytes, Bytes, Bytes) -> Option<string>,
    aesCbcEncrypt: (Bytes, Bytes, string) -> Option<Bytes>)

  /** The library calls invert each other: decoding what was encoded, and decrypting with the
      key and IV that encrypted. */
  ghost predicate RoundTrips(c: Crypto) {
    (forall b :: c.b64decode(c.b64encode(b)) == Some(b))
    && (forall key, iv, text, ct :: c.aesCbcEncrypt(key, iv, text) == Some(ct) ==>
          c.aesCbcDecrypt(key, iv, ct) == Some(text))
  }

  datatype KeyError =
    | MasterKeyMissing
    | MasterKeyUndecodable
    | MasterKeyWrongLength(length: nat)
    | BlobUndecodable
    | DecryptionFailed

  /** `_get_master_key`: the decoded `LLM_MODEL_DECRYPT_KEY`, which must be set, non-empty and
      decode to exactly 32 bytes. */
  function MasterKey(env: Env, c: Crypto): (r: Result<Bytes, KeyError>)
    ensures r.Ok? <==> (DecryptKeyVar in env && env[DecryptKeyVar] != []
                        && c.b64decode(env[DecryptKeyVar]).Some?
                        && |c.b64decode(env[DecryptKeyVar]).value| == 32)
    ensures r.Ok? ==> |r.value| == 32 && Some(r.value) == c.b64decode(env[DecryptKeyVar])
    ensures (DecryptKeyVar !in env || env[DecryptKeyVar] == []) ==> r == Err(MasterKeyMissing)
  {
    if DecryptKeyVar !in env || env[DecryptKeyVar] == [] then Err(MasterKeyMissing)
    else
      match c.b64decode(env[DecryptKeyVar])
      case None => Err(MasterKeyUndecodable)
      case Some(bytes) =>
        if |bytes| != 32 then Err(MasterKeyWrongLength(|bytes|)) else Ok(bytes)
  }

  /** `data[:16], data[16:]`: the IV and the ciphertext of a decoded blob. */
  function SplitBlob(data: Bytes): (Bytes, Bytes) {
    if |data| <= 16 then (data, []) else (data[..16], data[16..])
  }

  /** The split undoes the concatenation `iv + ct` made by encryption, for a 16-byte IV. */
  lemma SplitJoin(iv: Bytes, ct: Bytes)
    requires |iv| == 16
    ensures SplitBlob(iv + ct) == (iv, ct)
  {
    var data := iv + ct;
    if |data| > 16 {
      assert data[..16] == iv && data[16..] == ct;
    } else {
      assert ct == [] && data == iv;
    }
  }

  /** `decrypt_key`: the master key first, then the blob decoded, split and decrypted. */
  function DecryptKey(env: Env, c: Crypto, encrypted: string): (r: Result<string, KeyError>)
    ensures MasterKey(env, c).Err? ==> r == Err(MasterKey(env, c).error)
    ensures MasterKey(env, c).Ok? && c.b64decode(encrypted).None? ==> r == Err(BlobUndecodable)
  {
    match MasterKey(env, c)
    case Err(e) => Err(e)
    case Ok(key) =>
      match c.b64decode(encrypted)
      case None => Err(BlobUndecodable)
      case Some(data) =>
        var (iv, ct) := SplitBlob(data);
        match c.aesCbcDecrypt(key, iv, ct)
        case None => Err(DecryptionFailed)
        case Some(text) => Ok(text)
  }

  /** `encrypt_key` with the random IV supplied: the base64 of `iv + ciphertext`. */
  function EncryptKey(c: Crypto, apiKey: string, masterKeyB64: string, iv: Bytes): Option<string> {
    match c.b64decode(masterKeyB64)
    case None => None
    case Some(key) =>
      match c.aesCbcEncrypt(key, iv, apiKey)
      case None => None
      case Some(ct) => Some(c.b64encode(iv + ct))
  }

  /** A key encrypted under the configured master key with a 16-byte IV decrypts to itself. */
  lemma DecryptEncrypted(env: Env, c: Crypto, apiKey: string, iv: Bytes, blob: string)
    requires RoundTrips(c)
    requires MasterKey(env, c).Ok? && |iv| == 16
    requires EncryptKey(c, apiKey, env[DecryptKeyVar], iv) == Some(blob)
    ensures DecryptKey(env, c, blob) == Ok(apiKey)
  {
    var key := MasterKey(env, c).value;
    var ct := c.aesCbcEncrypt(key, iv, apiKey).value;
    assert c.b64decode(c.b64encode(iv + ct)) == Some(iv + ct);
    SplitJoin(iv, ct);
  }

  /** The entry after the load step: `api_key` set from the decrypted `encrypted_api_key`
      when there is one, the entry unchanged otherwise. */
  function FillKey(m: ModelEntry, env: Env, c: Crypto): Result<ModelEntry, KeyError> {
    match m.encryptedApiKey
    case None => Ok(m)
    case Some(enc) =>
      match DecryptKey(env, c, enc)
      case Err(e) => Err(e)
      case Ok(key) => Ok(m.(apiKey := Some(key)))
  }

  /** The load step over the whole list: every entry filled, or the error of the first entry
      whose key fails to decrypt. */
  function FillKeys(models: seq<ModelEntry>, env: Env, c: Crypto): Result<seq<ModelEntry>, KeyError> {
    if models == [] then Ok([])
    else
      match FillKey(models[0], env, c)
      case Err(e) => Err(e)
      case Ok(m) =>
        match FillKeys(models[1..], env, c)
        case Err(e) => Err(e)
        case Ok(rest) => Ok([m] + rest)
  }

  /** Filling keeps count, order and every field but `api_key`; entries without an encrypted
      key are unchanged, the others carry the decrypted key. It fails exactly when some entry's
      key fails to decrypt, with the error of the first such entry. */
  lemma {:induction false} FillKeysSpec(models: seq<ModelEntry>, env: Env, c: Crypto)
    ensures var r := FillKeys(models, env, c);
            && (r.Ok? <==> forall i :: 0 <= i < |models| ==> FillKey(models[i], env, c).Ok?)
            && (r.Ok? ==>
                  (|r.value| == |models|
                   && forall i :: 0 <= i < |models| ==> Ok(r.value[i]) == FillKey(models[i], env, c)))
            && (r.Err? ==>
                  exists i :: (0 <= i < |models| && FillKey(models[i], env, c) == Err(r.error)
                               && forall j :: 0 <= j < i ==> FillKey(models[j], env, c).Ok?))
  {
    FillKeysOkSpec(models, env, c);
    FillKeysErrSpec(models, env, c);
  }

  /** The success half of `FillKeysSpec`. */
  lemma {:induction false} FillKeysOkSpec(models: seq<ModelEntry>, env: Env, c: Crypto)
    ensures var r := FillKeys(models, env, c);
            && (r.Ok? <==> forall i :: 0 <= i < |models| ==> FillKey(models[i], env, c).Ok?)
            && (r.Ok? ==>
                  (|r.value| == |models|
                   && forall i :: 0 <= i < |models| ==> Ok(r.value[i]) == FillKey(models[i], env, c)))
  {
    if models != [] {
      FillKeysOkSpec(models[1..], env, c);
      assert forall i :: 1 <= i < |models| ==> models[i] == models[1..][i - 1];
    }
  }

  /** The failure half of `FillKeysSpec`. */
  lemma {:induction false} FillKeysErrSpec(models: seq<ModelEntry>, env: Env, c: Crypto)
    ensures var r := FillKeys(models, env, c);
            r.Err? ==>
              exists i :: (0 <= i < |models| && FillKey(models[i], env, c) == Err(r.error)
                           && forall j :: 0 <= j < i ==> FillKey(models[j], env, c).Ok?)
  {
    if models != [] {
      var r := FillKeys(models, env, c);
      if FillKey(models[0], env, c).Err? {
        assert FillKey(models[0], env, c) == Err(r.error);
      } else {
        FillKeysErrSpec(models[1..], env, c);
        if r.Err? {
          var i :| 0 <= i < |models[1..]| && FillKey(models[1..][i], env, c) == Err(FillKeys(models[1..], env, c).error)
                    && forall j :: 0 <= j < i ==> FillKey(models[1..][j], env, c).Ok?;
          assert FillKey(models[i + 1], env, c) == Err(r.error);
          assert forall j :: 1 <= j < i + 1 ==> models[j] == models[1..][j - 1];
        }
      }
    }
  }

  /** What a filled entry looks like. */
  lemma FillKeyShape(m: ModelEntry, env: Env, c: Crypto)
    ensures m.encryptedApiKey.None? ==> FillKey(m, env, c) == Ok(m)
    ensures m.encryptedApiKey.Some? && DecryptKey(env, c, m.encryptedApiKey.value).Ok? ==>
              FillKey(m, env, c) == Ok(m.(apiKey := Some(DecryptKey(env, c, m.encryptedApiKey.value).value)))
  {
  }

  /** The loop of `_load_models` / `load_llm_models`: each entry with an encrypted key gets
      its `api_key` set in place; the first decryption failure aborts the load. */
  method DecryptEntries(models: seq<ModelEntry>, env: Env, c: Crypto)
    returns (result: Result<seq<ModelEntry>, KeyError>)
    ensures result == FillKeys(models, env, c)
  {
    var out := models;
    var i := 0;
    while i < |models|
      invariant 0 <= i <= |models| && |out| == |models|
      invariant out[i..] == models[i..]
      invariant forall j :: 0 <= j < i ==> Ok(out[j]) == FillKey(models[j], env, c)
    {
      var m := out[i];
      if m.encryptedApiKey.Some? {
        var key := DecryptKey(env, c, m.encryptedApiKey.value);
        if key.Err? {
          FillKeysSpec(models, env, c);
          FillKeysFirstError(models, env, c, i);
          return Err(key.error);
        }
        out := out[i := m.(apiKey := Some(key.value))];
      }
      assert out[i + 1..] == models[i + 1..] by {
        assert forall k :: i + 1 <= k < |models| ==> out[k] == models[k];
      }
      i := i + 1;
    }
    FillKeysSpec(models, env, c);
    FillKeysOk(models, env, c, out);
    result := Ok(out);
  }

  /** When every entry before `i` fills and entry `i` fails, filling fails with `i`'s error. */
  lemma {:induction false} FillKeysFirstError(models: seq<ModelEntry>, env: Env, c: Crypto, i: nat)
    requires i < |models| && FillKey(models[i], env, c).Err?
    requires forall j :: 0 <= j < i ==> FillKey(models[j], env, c).Ok?
    ensures FillKeys(models, env, c) == Err(FillKey(models[i], env, c).error)
  {
    if i > 0 {
      FillKeysFirstError(models[1..], env, c, i - 1);
    }
  }

  /** When every entry fills, filling yields exactly the filled entries. */
  lemma {:induction false} FillKeysOk(models: seq<ModelEntry>, env: Env, c: Crypto, out: seq<ModelEntry>)
    requires |out| == |models|
    requires forall j :: 0 <= j < |models| ==> Ok(out[j]) == FillKey(models[j], env, c)
    ensures FillKeys(models, env, c) == Ok(out)
  {
    if models != [] {
      FillKeysOk(models[1..], env, c, out[1..]);
      assert out == [out[0]] + out[1..];
    }
  }

  /** `_load_models`: no catalog file (`source` is `None`) gives an empty catalog; otherwise
      the parsed entries with their keys filled. */
  method LoadModels(source: Option<seq<ModelEntry>>, env: Env, c: Crypto)
    returns (result: Result<seq<ModelEntry>, KeyError>)
    ensures source.None? ==> result == Ok([])
    ensures source.Some? ==> result == FillKeys(source.value, env, c)
  {
    if source.None? {
      return Ok([]);
    }
    result := DecryptEntries(source.value, env, c);
  }

  /** The first entry named `name`, if any. */
  function FindByName(models: seq<ModelEntry>, name: string): (r: Option<ModelEntry>)
    ensures r.Some? ==> r.value in models && r.value.name == name
    ensures r.None? <==> forall m :: m in models ==> m.name != name
  {
    if models == [] then None
    else if models[0].name == name then Some(models[0])
    else
      assert forall m :: m in models ==> m == models[0] || m in models[1..];
      FindByName(models[1..], name)
  }

  /** The entry found is the first one with that name: no earlier entry carries it. */
  lemma {:induction false} FindByNameFirst(models: seq<ModelEntry>, name: string)
    requires FindByName(models, name).Some?
    ensures exists i :: 0 <= i < |models| && models[i] == FindByName(models, name).value
                        && forall j :: 0 <= j < i ==> models[j].name != name
  {
    if models[0].name != name {
      FindByNameFirst(models[1..], name);
      var i :| 0 <= i < |models[1..]| && models[1..][i] == FindByName(models[1..], name).value
                && forall j :: 0 <= j < i ==> models[1..][j].name != name;
      assert models[i + 1] == models[1..][i];
      assert forall j :: 1 <= j < i + 1 ==> models[j] == models[1..][j - 1];
    } else {
      assert models[0] == FindByName(models, name).value;
    }
  }

  /** The loaded catalog with its default model name. */
  class Catalog {
    const models: seq<ModelEntry>
    const defaultName: string

    /** The default name is fixed when the catalog is built, from `DEFAULT_LLM_MODEL`. */
    constructor (models: seq<ModelEntry>, env: Env)
      ensures this.models == models
      ensures DefaultModelVar in env ==> defaultName == env[DefaultModelVar]
      ensures DefaultModelVar !in env ==> defaultName == FallbackModelName
    {
      this.models := models;
      this.defaultName := DefaultModelName(env);
    }

    /** `get_model_by_name`: a linear scan returning at the first entry with that name. */
    method GetModelByName(name: string) returns (m: Option<ModelEntry>)
      ensures m == FindByName(models, name)
      ensures m.Some? ==> exists i :: 0 <= i < |models| && models[i] == m.value && m.value.name == name
                            && forall j :: 0 <= j < i ==> models[j].name != name
      ensures m.None? ==> forall e :: e in models ==> e.name != name
    {
      var i := 0;
      while i < |models|
        invariant 0 <= i <= |models|
        invariant forall j :: 0 <= j < i ==> models[j].name != name
        invariant FindByName(models, name) == FindByName(models[i..], name)
      {
        if models[i].name == name {
          return Some(models[i]);
        }
        assert models[i..][1..] == models[i + 1..];
        i := i + 1;
      }
      return None;
    }

    /** `get_default_model`: the lookup of the default name. */
    method GetDefaultModel() returns (m: Option<ModelEntry>)
      ensures m == FindByName(models, defaultName)
    {
      m := GetModelByName(defaultName);
    }
  }
}
