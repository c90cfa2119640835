/** The encrypted config snapshot on disk: replaced by a temporary file and a rename. */
module SnapshotFile {
  import opened WorkspaceConfig
  import opened Wrappers

  /** JSON and encryption: sealing takes a nonce, and a foreign or damaged text does not open. */
  datatype Vault = Vault(
    encode: Config -> string,
    seal: (string, nat) -> string,
    unseal: string -> Option<string>,
    decode: string -> Option<Config>)

  ghost predicate LawfulVault(v: Vault) {
    forall cfg, nonce :: Opened(v, v.seal(v.encode(cfg), nonce)) == Ok(cfg)
  }

  /** What a sealed text stands for. */
  function Opened(v: Vault, sealed: string): Result<Config> {
    match v.unseal(sealed)
    case None => Err("decrypting config snapshot")
    case Some(plain) =>
      match v.decode(plain)
      case None => Err("decoding config snapshot")
      case Some(cfg) => Ok(cfg)
  }

  /** Where saving fails; a failing write may leave any part of the text in the temporary file. */
  datatype Fault =
    | NoFault
    | AtMarshal
    | AtEncrypt
    | AtCreate
    | AtChmod
    | AtWrite(written: nat)
    | AtClose
    | AtRename

  /** The snapshot file, None if there is none, and the temporary files beside it by their random names. */
  datatype Directory = Directory(file: Option<string>, temps: map<nat, string>)

  /** os.CreateTemp: the first random name that is not taken. */
  function FreeName(taken: set<nat>, random: nat): (name: nat)
    ensures name >= random && name !in taken
    decreases |taken|
  {
    if random !in taken then random else FreeName(taken - {random}, random + 1)
  }

  /** A moment of saving: the file is old or new as a whole, and only the own temporary file comes and goes. */
  ghost predicate StepOfSave(before: Directory, now: Directory, name: nat, sealed: string) {
    && (now.file == before.file || now.file == Some(sealed))
    && now.temps - {name} == before.temps
    && (name in now.temps ==> now.temps[name] <= sealed)
  }

  lemma TempStep(before: Directory, name: nat, text: string, sealed: string)
    requires name !in before.temps && text <= sealed
    ensures StepOfSave(before, before.(temps := before.temps[name := text]), name, sealed)
    ensures StepOfSave(before, before, name, sealed) && StepOfSave(before, before.(file := Some(sealed)), name, sealed)
    ensures before.temps[name := text] - {name} == before.temps
  {
    assert before.temps - {name} == before.temps;
    assert before.temps[name := text] - {name} == before.temps;
  }

  class Snapshotter {
    const vault: Vault
    var dir: Directory

    constructor (vault: Vault, dir: Directory)
      ensures this.vault == vault && this.dir == dir
    {
      this.vault, this.dir := vault, dir;
    }

    /** What a start from the file would serve. */
    ghost function Content(): Option<Config>
      reads this
    {
      if dir.file.None? then None
      else match Opened(vault, dir.file.value)
        case Ok(cfg) => Some(cfg)
        case Err(_) => None
    }

    /**
      Saves through a temporary file of its own, which is removed in any case; leftovers of earlier
      crashes stay. trace holds the directory after every step: wherever the process dies, the
      snapshot is the old one or the whole new one.
     */
    method Save(cfg: Config, nonce: nat, fault: Fault) returns (ok: bool, ghost trace: seq<Directory>)
      modifies this
      ensures ok == fault.NoFault?
      ensures dir.file == if ok then Some(vault.seal(vault.encode(cfg), nonce)) else old(dir).file
      ensures dir.temps == old(dir).temps
      ensures LawfulVault(vault) ==> Content() == if ok then Some(cfg) else old(Content())
      ensures trace != [] && trace[0] == old(dir) && trace[|trace| - 1] == dir
      ensures forall d :: d in trace ==>
        StepOfSave(old(dir), d, FreeName(old(dir).temps.Keys, nonce), vault.seal(vault.encode(cfg), nonce))
    {
      ghost var before, own := dir, FreeName(dir.temps.Keys, nonce);
      TempStep(before, own, "", vault.seal(vault.encode(cfg), nonce));
      trace := [dir];
      if fault.AtMarshal? || fault.AtEncrypt? {
        return false, trace;
      }
      var sealed := vault.seal(vault.encode(cfg), nonce);
      if fault.AtCreate? {
        return false, trace;
      }
      var name := FreeName(dir.temps.Keys, nonce);
      dir := dir.(temps := dir.temps[name := ""]);
      trace := trace + [dir];
      if !fault.AtChmod? {
        var n := if fault.AtWrite? && fault.written < |sealed| then fault.written else |sealed|;
        dir := dir.(temps := dir.temps[name := sealed[..n]]);
        assert n == |sealed| ==> sealed[..n] == sealed;
        TempStep(before, own, sealed[..n], sealed);
        assert dir == before.(temps := before.temps[name := sealed[..n]]);
        trace := trace + [dir];
        if fault.NoFault? {
          dir := Directory(Some(dir.temps[name]), dir.temps - {name});
          trace := trace + [dir];
          return true, trace;
        }
      }
      dir := dir.(temps := dir.temps - {name});
      trace := trace + [dir];
      ok := false;
    }

    /** Fails on a missing, damaged or foreign file. */
    method Load() returns (r: Result<Config>)
      ensures r.Ok? <==> dir.file.Some? && var plain := vault.unseal(dir.file.value);
        plain.Some? && vault.decode(plain.value).Some?
      ensures r.Ok? ==> vault.decode(vault.unseal(dir.file.value).value) == Some(r.value)
      ensures Content() == match r case Ok(cfg) => Some(cfg) case Err(_) => None
    {
      if dir.file.None? {
        return Err("reading config snapshot");
      }
      var plain := vault.unseal(dir.file.value);
      if plain.None? {
        return Err("decrypting config snapshot");
      }
      var cfg := vault.decode(plain.value);
      if cfg.None? {
        return Err("decoding config snapshot");
      }
      r := Ok(cfg.value);
    }
  }
}
