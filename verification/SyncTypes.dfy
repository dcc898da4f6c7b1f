/** The values that the sync protocol exchanges: vault contents, plain records, sealed records,
    server rows, and what a device remembers about each record. Cryptography is symbolic: a
    digest and a sealed box are constructors, so equal digests mean equal payloads and a box
    opens only under its own key and additional data. */
module SyncTypes {
  import opened Common

  datatype RecordId =
    | ItemRecord(itemId: string)
    | SitePasskeyRecord(credentialId: string)
    | SettingsRecord

  /** A timestamp string: the ISO form of a clock reading, or any other text. */
  datatype Stamp = At(ms: pos) | Text(text: string)

  /** The payload of a record. Absent optional fields are absent keys. */
  datatype Body =
    | ItemBody(itemType: string, itemName: string, fields: map<string, string>)
    | PasskeyBody(passkeyId: string, itemId: string, title: string, signCount: nat, createdAt: Stamp, rest: map<string, string>)
    | SettingsBody(settings: map<string, string>)

  datatype Plain = Plain(id: RecordId, body: Body, updatedAt: Option<Stamp>, deletedAt: Option<pos>)

  /** `NoHash` is the empty string that a device stores when it could not open a record. */
  datatype ContentHash = NoHash | Sha256(id: RecordId, body: Body, deletedAt: Option<pos>)

  function Hash(p: Plain): ContentHash {
    Sha256(p.id, p.body, p.deletedAt)
  }

  // ---- the local vault

  datatype PasskeyRef = PasskeyRef(credentialId: string, passkeyId: string, title: string, createdAt: Stamp)

  /** `fields` are the synced optional fields, `local` the ones that never leave the device. */
  datatype Item = Item(itemId: string, itemType: string, itemName: string, fields: map<string, string>,
                       local: map<string, string>, passkeys: seq<PasskeyRef>, updatedAt: Option<Stamp>)

  datatype Passkey = Passkey(credentialId: Option<string>, itemId: Option<string>, id: Option<string>,
                             title: Option<string>, signCount: Option<nat>, createdAt: Option<Stamp>,
                             rest: map<string, string>)

  datatype Vault = Vault(items: seq<Item>, settings: map<string, string>, sitePasskeys: seq<Passkey>)

  // ---- cryptography

  type VaultKey = nat

  datatype Wrapped = Wrapped(account: string, key: VaultKey)

  datatype Aad = Aad(account: string, id: RecordId, revision: nat)

  datatype Sealed = Sealed(key: VaultKey, aad: Aad, plain: Plain)

  function Open(key: VaultKey, aad: Aad, box: Sealed): Option<Plain> {
    if box.key == key && box.aad == aad then Some(box.plain) else None
  }

  // ---- what travels and what the server stores

  datatype Encrypted = Encrypted(id: RecordId, revision: nat, deviceId: string, deletedAt: Option<pos>,
                                 box: Sealed, hash: ContentHash)

  datatype Row = Row(id: RecordId, revision: nat, serverSequence: nat, deviceId: string,
                     deletedAt: Option<pos>, box: Sealed, hash: ContentHash)

  datatype Accepted = Accepted(id: RecordId, revision: nat, serverSequence: nat, hash: ContentHash)

  /** The version of a record that a device last acknowledged. */
  datatype Meta = Meta(revision: nat, hash: ContentHash, serverSequence: nat, deletedAt: Option<pos>, itemId: Option<string>)

  function Encrypt(key: VaultKey, account: string, deviceId: string, revision: nat, p: Plain): Encrypted {
    Encrypted(p.id, revision, deviceId, p.deletedAt, Sealed(key, Aad(account, p.id, revision), p), Hash(p))
  }

  /** The bounds that a device checks before it trusts a record it opened. */
  predicate Bounded(s: string, max: nat) {
    |s| <= max && !Blank(s) && '\0' !in s
  }

  function FieldLimit(key: string): nat {
    if key in {"content", "notes", "sshPrivateKey", "otp"} then 100_000 else 4096
  }

  predicate ValidPlain(p: Plain) {
    match p.body
    case ItemBody(_, name, fields) =>
      && p.id.ItemRecord? && Bounded(p.id.itemId, 160) && Bounded(name, 256) && p.updatedAt.Some?
      && forall k :: k in fields ==> |fields[k]| <= FieldLimit(k) && '\0' !in fields[k]
    case PasskeyBody(passkeyId, itemId, title, _, _, _) =>
      && p.id.SitePasskeyRecord? && Bounded(p.id.credentialId, 4096) && Bounded(passkeyId, 160)
      && Bounded(itemId, 160) && Bounded(title, 256)
    case SettingsBody(_) =>
      p.id.SettingsRecord? && p.updatedAt.Some?
  }

  /** `decryptSyncRecord`: None stands for the exception. */
  function Decrypt(key: VaultKey, account: string, row: Row): Option<Plain> {
    match Open(key, Aad(account, row.id, row.revision), row.box)
    case None => None
    case Some(p) =>
      if ValidPlain(p) && p.id == row.id && p.deletedAt == row.deletedAt && Hash(p) == row.hash then Some(p) else None
  }
}
