/** The tables of internal/db/migrations, as values.  A table is a map from its key to the rest of
    the row; files is kept under its unique (vault, path) with its id inside the row. */
module Schema {
  import opened Common
  import opened Crypto

  type UserId = nat
  type DeviceId = nat
  type TeamId = nat
  type VaultId = nat
  type FileId = nat

  /** An Ed25519 public key, standing for its pair. */
  type SignKey = nat

  /** The printed hash of a signing key, or any other text a client may claim to be one. */
  datatype Fingerprint = HashOf(key: SignKey) | OtherText(text: string)

  datatype DeviceStatus = PendingDevice | ActiveDevice | RevokedDevice
  datatype MemberStatus = PendingMember | ActiveMember
  datatype Role = Admin | Member

  datatype Action = Registered | DeviceRecovered | DeviceAdded | DeviceRevoked
    | TeamCreated | TeamDeleted | Invited | InviteClaimed | AdminSet
    | VaultCreated | Granted | GrantRevoked | FilePushed | FileDeleted

  /** The text an audit row names its object by. */
  datatype Target = Name(text: string) | DeviceTarget(device: DeviceId) | PrintTarget(print_: Fingerprint)

  datatype UserRow = UserRow(username: string)
  datatype DeviceRow = DeviceRow(user: UserId, name: string, signPub: SignKey, boxPub: BoxKey,
                                 fingerprint: Fingerprint, status: DeviceStatus)
  datatype TeamRow = TeamRow(name: string)
  datatype MemberKey = MemberKey(team: TeamId, user: UserId)
  datatype MemberRow = MemberRow(status: MemberStatus, role: Role)
  datatype VaultRow = VaultRow(team: TeamId, name: string)
  datatype GrantKey = GrantKey(vault: VaultId, user: UserId)
  datatype ShareKey = ShareKey(vault: VaultId, device: DeviceId, keyVersion: int)
  datatype FileKey = FileKey(vault: VaultId, path: string)
  datatype FileRow = FileRow(id: FileId, latest: nat, deleted: bool)
  datatype VersionKey = VersionKey(file: FileId, version: nat)
  datatype VersionRow = VersionRow(keyVersion: int, blob: Blob, size: nat, author: Option<DeviceId>, deleted: bool)
  datatype InviteRow = InviteRow(team: TeamId, username: string, createdBy: UserId, expiresAt: int,
                                 usedBy: Option<UserId>)
  datatype AuditRow = AuditRow(user: Option<UserId>, device: Option<DeviceId>, vault: Option<VaultId>,
                               action: Action, target: Target, at: int)

  datatype FileTables = FileTables(files: map<FileKey, FileRow>, versions: map<VersionKey, VersionRow>)

  datatype Db = Db(
    users: map<UserId, UserRow>,
    devices: map<DeviceId, DeviceRow>,
    teams: map<TeamId, TeamRow>,
    members: map<MemberKey, MemberRow>,
    vaults: map<VaultId, VaultRow>,
    grants: set<GrantKey>,
    shares: map<ShareKey, Sealed>,
    ft: FileTables,
    invites: map<string, InviteRow>,
    audit: seq<AuditRow>)

  /** The server's database handle. */
  class Store {
    var db: Db

    constructor (db: Db)
      ensures this.db == db
    {
      this.db := db;
    }
  }
}
