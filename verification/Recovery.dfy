/** Setting a device up, registering it and recovering it from its phrase: onboard.go, register.go and
    recover.go of internal/client/actions. */
module Recovery {
  import opened Common
  import opened Crypto
  import opened Schema
  import opened Lookup
  import opened Directory
  import opened Server
  import opened ServerInvariant
  import opened ServerRuns
  import Numerals
  import Mnemonic

  type Seed = seq<nat>

  datatype KeyPair = KeyPair(sign: SignKey, box: BoxKey)

  /** A key pair encrypted under a passphrase, which alone decrypts it. */
  datatype EncryptedKey = EncryptedKey(pair: KeyPair, passphrase: string)

  /** The key file of a machine. */
  class Keystore {
    var file: Option<EncryptedKey>

    constructor ()
      ensures file == None
    {
      file := None;
    }

    method Unlock(passphrase: string) returns (r: Option<KeyPair>)
      ensures r == if file.Some? && file.value.passphrase == passphrase then Some(file.value.pair) else None
    {
      if file.Some? && file.value.passphrase == passphrase {
        return Some(file.value.pair);
      }
      r := None;
    }
  }

  /** The configuration file of a machine: its server, and who it has registered as. */
  class Config {
    var url: string
    var username: string
    var device: Option<DeviceId>

    constructor (url: string)
      ensures this.url == url && username == "" && device == None
    {
      this.url, username, device := url, "", None;
    }
  }

  const MIN_PASSPHRASE := 8

  ghost predicate IsSeed(seed: Seed) {
    |seed| == Mnemonic.SEED_BYTES && Numerals.Below(seed, 256)
  }

  /** InitDevice: the key is saved before the phrase is spelled, so that where spelling fails the machine
      has a key and its user no phrase. */
  method InitDevice(ks: Keystore, c: Mnemonic.Codec, derive: Seed -> KeyPair, passphrase: string, seed: Seed)
    returns (phrase: Option<string>)
    requires IsSeed(seed)
    modifies ks
    ensures var goes := old(ks.file).None? && |passphrase| >= 8;
      && ks.file == (if goes then Some(EncryptedKey(derive(seed), passphrase)) else old(ks.file))
      && phrase == if goes && Mnemonic.Encode(c, seed).Ok? then Some(Mnemonic.Encode(c, seed).value) else None
  {
    if ks.file.Some? || |passphrase| < MIN_PASSPHRASE {
      return None;
    }
    ks.file := Some(EncryptedKey(derive(seed), passphrase));
    var spelled := Mnemonic.SeedToMnemonic(c, seed);
    if spelled.Err? {
      return None;
    }
    phrase := Some(spelled.value);
  }

  function Request(pair: KeyPair, username: string, host: string): RegisterRequest {
    RegisterRequest(username, host, pair.sign, pair.box, HashOf(pair.sign), None)
  }

  /** Register: unlock the key, register it, and note in the configuration who the machine is. */
  method RegisterMachine(ks: Keystore, cfg: Config, s: Store, username: string, deviceName: string, host: string,
                         passphrase: string, newUser: UserId, newDevice: DeviceId, at: int)
    returns (r: Option<Registration>)
    requires UniqueNames(s.db)
    modifies cfg, s
    ensures var opens := ks.file.Some? && ks.file.value.passphrase == passphrase;
      var name := if deviceName == "" then host else deviceName;
      var reply := if cfg.url == "" || !opens then Refuse(old(s.db))
                   else Directory.Register(old(s.db), Request(ks.file.value.pair, username, name), newUser,
                                           newDevice, at);
      s.db == reply.db && r == reply.answer
    ensures cfg.url == old(cfg.url)
    ensures cfg.username == (if r.Some? then username else old(cfg.username))
    ensures cfg.device == (if r.Some? then Some(r.value.device) else old(cfg.device))
  {
    if cfg.url == "" {
      return None;
    }
    var name := deviceName;
    if name == "" {
      name := host;
    }
    var pair := ks.Unlock(passphrase);
    if pair.None? {
      return None;
    }
    r := HandleRegister(s, Request(pair.value, username, name), newUser, newDevice, at);
    if r.Some? {
      cfg.username := username;
      cfg.device := Some(r.value.device);
    }
  }

  /** What the server answers to a recovery with a phrase. */
  ghost function RecoverReply(db: Db, c: Mnemonic.Codec, derive: Seed -> KeyPair, username: string, host: string,
                              phrase: string, newUser: UserId, newDevice: DeviceId, at: int): Reply<Registration> {
    var seed := Mnemonic.Decode(c, phrase);
    if seed.Err? then Refuse(db) else Register(db, Request(derive(seed.value), username, host), newUser, newDevice, at)
  }

  /** Recover: read the phrase, save the key it gives, register it again under the host's name.  The key
      stays where registering fails, and with a key there is no second try. */
  method Recover(ks: Keystore, cfg: Config, s: Store, c: Mnemonic.Codec, derive: Seed -> KeyPair, username: string,
                 host: string, phrase: string, passphrase: string, newUser: UserId, newDevice: DeviceId, at: int)
    returns (r: Option<Registration>)
    requires c.Good() && UniqueNames(s.db)
    modifies ks, cfg, s
    ensures var goes := old(ks.file).None? && |passphrase| >= 8 && Mnemonic.Decode(c, phrase).Ok?;
      && ks.file == (if goes then Some(EncryptedKey(derive(Mnemonic.Decode(c, phrase).value), passphrase))
                     else old(ks.file))
      && var reply := RecoverReply(old(s.db), c, derive, username, host, phrase, newUser, newDevice, at);
         if goes && old(cfg.url) != "" then s.db == reply.db && r == reply.answer else s.db == old(s.db) && r == None
    ensures cfg.url == old(cfg.url)
    ensures cfg.username == (if r.Some? then username else old(cfg.username))
    ensures cfg.device == (if r.Some? then Some(r.value.device) else old(cfg.device))
  {
    if ks.file.Some? || |passphrase| < MIN_PASSPHRASE {
      return None;
    }
    var seed := Mnemonic.MnemonicToSeed(c, phrase);
    if seed.Err? {
      return None;
    }
    ks.file := Some(EncryptedKey(derive(seed.value), passphrase));
    r := RegisterMachine(ks, cfg, s, username, "", host, passphrase, newUser, newDevice, at);
  }

  // ---------------------------------------------------------------- what recovery reaches

  /** The device was registered with the key pair. */
  predicate HasPair(db: Db, d: DeviceId, pair: KeyPair) {
    d in db.devices && db.devices[d].signPub == pair.sign && db.devices[d].boxPub == pair.box
  }

  /** Registering a known key pair again reaches its device if and only if it is under its owner's name
      (of a length the server takes); it is active then, and nothing else of it has changed. */
  lemma ReregisteringIff(db: Db, pair: KeyPair, d: DeviceId, username: string, host: string, newUser: UserId,
                         newDevice: DeviceId, at: int)
    requires ServerInv(db) && HasPair(db, d, pair) && newDevice !in db.devices
    ensures var reply, owner := Register(db, Request(pair, username, host), newUser, newDevice, at), db.devices[d].user;
      && (reply.answer.Some? <==> 0 < |username| <= 255 && |host| <= 255 && username == db.users[owner].username)
      && (reply.answer.Some? ==>
            reply.answer.value == Registration(owner, d, ActiveDevice)
            && reply.db.devices == WithStatus(db.devices, d, ActiveDevice) && reply.db.shares == db.shares)
  {
    var req := Request(pair, username, host);
    assert DeviceWith(db, req.fingerprint) == Some(d);
    assert UserNamed(db, username) == Some(db.devices[d].user) <==> username == db.users[db.devices[d].user].username;
  }

  /** The phrase InitDevice returned recovers the device its key was registered for, at any later time:
      the same id, active, with all its vault shares and the key that opens them. */
  lemma RecoverReachesTheDevice(states: seq<Db>, reqs: seq<Timed>, i: nat, j: nat, d: DeviceId, c: Mnemonic.Codec,
                                derive: Seed -> KeyPair,
                                seed: Seed, host: string, newUser: UserId, newDevice: DeviceId, at: int)
    requires Run(states, reqs) && i <= j <= |reqs| && c.Good() && IsSeed(seed) && Mnemonic.Encode(c, seed).Ok?
    requires HasPair(states[i], d, derive(seed)) && newDevice !in states[j].devices && |host| <= 255
    ensures d in states[j].devices && states[j].devices[d].user in states[j].users
    ensures
      var username := states[j].users[states[j].devices[d].user].username;
      var reply := RecoverReply(states[j], c, derive, username, host, Mnemonic.Encode(c, seed).value, newUser,
                                newDevice, at);
      && reply.answer == Some(Registration(states[j].devices[d].user, d, ActiveDevice))
      && HasPair(reply.db, d, derive(seed)) && reply.db.devices[d].status == ActiveDevice
      && reply.db.shares == states[j].shares
  {
    DeviceIdentityIsForever(states, reqs, i, j, d);
    RunKeepsServerInv(states, reqs, j);
    Mnemonic.DecodeOfEncode(c, seed);
    ReregisteringIff(states[j], derive(seed), d, states[j].users[states[j].devices[d].user].username, host, newUser,
                     newDevice, at);
  }
}
