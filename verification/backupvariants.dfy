/**
 * How the three backup managers read each other's backups. They share the
 * envelope layout, the iteration count and the key size, but each salts with its
 * own suffix and accepts its own versions, so no backup made by one of them opens
 * under another, even with the right password.
 */
module BackupVariants {
  import opened Js
  import JsonText
  import opened WebCrypto
  import opened BackupEnvelope
  import DriveBackup
  import Backup
  import SimpleBackup

  /** Salts with different suffixes differ, whatever the user id. */
  lemma SuffixesApart(userId: string, suffix: string, suffix2: string)
    requires suffix != suffix2
    ensures userId + suffix != userId + suffix2
  {
    var a, b := userId + suffix, userId + suffix2;
    if |suffix| == |suffix2| {
      assert a[|userId|..] == suffix && b[|userId|..] == suffix2;
    } else {
      assert |a| != |b|;
    }
  }

  /** The same password and user id give three different keys under the three managers. */
  lemma KeysApart(password: string, userId: string)
    ensures DriveBackup.DeriveBackupKey(password, userId) != Backup.DeriveBackupKey(password, userId)
    ensures DriveBackup.DeriveBackupKey(password, userId) != SimpleBackup.DeriveBackupKey(password, userId)
    ensures Backup.DeriveBackupKey(password, userId) != SimpleBackup.DeriveBackupKey(password, userId)
  {
    assert DriveBackup.SaltSuffix[1] != Backup.SaltSuffix[1];
    assert DriveBackup.SaltSuffix[1] != SimpleBackup.SaltSuffix[1];
    assert Backup.SaltSuffix[8] != SimpleBackup.SaltSuffix[8];
    SuffixesApart(userId, DriveBackup.SaltSuffix, Backup.SaltSuffix);
    SuffixesApart(userId, DriveBackup.SaltSuffix, SimpleBackup.SaltSuffix);
    SuffixesApart(userId, Backup.SaltSuffix, SimpleBackup.SaltSuffix);
    BackupKeyInjective(password, userId + DriveBackup.SaltSuffix, password, userId + Backup.SaltSuffix);
    BackupKeyInjective(password, userId + DriveBackup.SaltSuffix, password, userId + SimpleBackup.SaltSuffix);
    BackupKeyInjective(password, userId + Backup.SaltSuffix, password, userId + SimpleBackup.SaltSuffix);
  }

  /**
   * The Drive manager accepts version 1, but a version-1 backup written by either
   * other manager, opened with its own password and user id, reads as an invalid
   * password there.
   */
  lemma DriveRejectsVersionOne(backupData: string, password: string, userId: string, iv: seq<Byte>, timestamp: int)
    requires |iv| > 0
    ensures DriveBackup.OpenBackup(Backup.SealedBackup(backupData, password, userId, iv, timestamp), password, userId)
      == Err(InvalidPassword)
    ensures DriveBackup.OpenBackup(JsonText.Stringify(SimpleBackup.SealedBackup(backupData, password, userId, iv, timestamp)),
                                   password, userId)
      == Err(InvalidPassword)
  {
    KeysApart(password, userId);
    DriveBackup.OpenSealed(1, Backup.DeriveBackupKey(password, userId), iv, backupData, timestamp, userId, password, userId);
    DriveBackup.OpenSealed(1, SimpleBackup.DeriveBackupKey(password, userId), iv, backupData, timestamp, userId, password, userId);
  }

  /** The version of a Drive backup as the other managers read it: the number 2. */
  lemma DriveVersion(backupData: string, password: string, userId: string, iv: seq<Byte>, timestamp: int)
    requires |iv| > 0
    ensures var env := DriveBackup.SealedBackup(backupData, password, userId, iv, timestamp);
      env.JObj? && Lookup(env.fields, "version") == Some(JNum(2))
  {
    DriveBackup.SealedBackupFields(backupData, password, userId, iv, timestamp);
  }

  /** A Drive backup is refused by the other two managers as an unsupported version, before any key is derived. */
  lemma OthersRejectVersionTwo(backupData: string, password: string, userId: string, iv: seq<Byte>, timestamp: int,
                               password2: string, userId2: string)
    requires |iv| > 0
    ensures var text := JsonText.Stringify(DriveBackup.SealedBackup(backupData, password, userId, iv, timestamp));
      Backup.OpenBackup(text, password2, userId2) == Err(UnsupportedVersion)
      && SimpleBackup.OpenBackup(text, password2, userId2) == Err(UnsupportedVersion)
  {
    var env := DriveBackup.SealedBackup(backupData, password, userId, iv, timestamp);
    DriveVersion(backupData, password, userId, iv, timestamp);
    Backup.OpenText(env, password2, userId2);
    Backup.VersionGate(env, password2, userId2);
    SimpleBackup.OpenText(env, password2, userId2);
    SimpleBackup.VersionGate(env, password2, userId2);
  }

  /** backup.js and backup-simple.js both write version 1, and each reads the other's backup as an invalid password. */
  lemma VersionOneApart(backupData: string, password: string, userId: string, iv: seq<Byte>, timestamp: int)
    requires |iv| > 0
    ensures Backup.OpenBackup(JsonText.Stringify(SimpleBackup.SealedBackup(backupData, password, userId, iv, timestamp)),
                              password, userId)
      == Err(InvalidPassword)
    ensures SimpleBackup.OpenBackup(Backup.SealedBackup(backupData, password, userId, iv, timestamp), password, userId)
      == Err(InvalidPassword)
  {
    KeysApart(password, userId);
    Backup.OpenSealed(SimpleBackup.DeriveBackupKey(password, userId), iv, backupData, timestamp, userId, password, userId);
    SimpleBackup.OpenSealed(Backup.DeriveBackupKey(password, userId), iv, backupData, timestamp, userId, password, userId);
  }
}
