/**
 * The password vault: a name-to-password map changed in place, whose every change
 * is committed in memory before it is serialised, encrypted and written (that
 * persistence step is an input here), and the byte layout of an encrypted blob:
 * nonce (12 bytes), ciphertext, authentication tag (16 bytes).
 */
module PasswordVault {
  import opened Wrappers

  type Byte = b: int | 0 <= b < 256

  const NonceLength: nat := 12
  const TagLength: nat := 16

  const InvalidEncryptedData := "Invalid encrypted data"
  const EntryNotFound := "Entry not found"

  /** The three parts of an encrypted blob. */
  datatype Sealed = Sealed(nonce: seq<Byte>, ciphertext: seq<Byte>, tag: seq<Byte>)

  predicate WellSized(s: Sealed) {
    |s.nonce| == NonceLength && |s.tag| == TagLength
  }

  /**
   * The combining step of `encrypt`: nonce, then ciphertext, then tag, appended one
   * after the other to an empty buffer.
   */
  method Frame(nonce: seq<Byte>, ciphertext: seq<Byte>, tag: seq<Byte>) returns (blob: seq<Byte>)
    requires |nonce| == NonceLength && |tag| == TagLength
    ensures blob == nonce + ciphertext + tag
    ensures |blob| == |ciphertext| + NonceLength + TagLength
    ensures Unframe(blob) == Ok(Sealed(nonce, ciphertext, tag))
  {
    blob := [];
    blob := blob + nonce;
    blob := blob + ciphertext;
    blob := blob + tag;
    UnframeFrame(Sealed(nonce, ciphertext, tag));
  }

  /**
   * The slicing step of `decrypt`: data shorter than nonce plus tag is rejected;
   * otherwise the first 12 bytes are the nonce, the last 16 the tag, and whatever
   * lies between (possibly nothing) the ciphertext.
   */
  function Unframe(data: seq<Byte>): (r: Result<Sealed, string>)
    ensures r.Err? <==> |data| < NonceLength + TagLength
    ensures r.Err? ==> r.error == InvalidEncryptedData
    ensures r.Ok? ==> WellSized(r.value)
    ensures r.Ok? ==> r.value.nonce + r.value.ciphertext + r.value.tag == data
  {
    if |data| < NonceLength + TagLength then Err(InvalidEncryptedData)
    else
      var s := Sealed(data[..NonceLength], data[NonceLength..|data| - TagLength], data[|data| - TagLength..]);
      assert s.nonce + s.ciphertext + s.tag == data;
      Ok(s)
  }

  /** Splitting a framed blob gives back exactly the nonce, ciphertext and tag it was built from. */
  lemma UnframeFrame(s: Sealed)
    requires WellSized(s)
    ensures Unframe(s.nonce + s.ciphertext + s.tag) == Ok(s)
  {
    var data := s.nonce + s.ciphertext + s.tag;
    assert data[..NonceLength] == s.nonce;
    assert data[NonceLength..|data| - TagLength] == s.ciphertext;
    assert data[|data| - TagLength..] == s.tag;
  }

  /** The smallest accepted blob carries an empty ciphertext. */
  lemma ShortestBlob(data: seq<Byte>)
    requires |data| == NonceLength + TagLength
    ensures Unframe(data).Ok? && Unframe(data).value.ciphertext == []
  {
  }

  class PasswordManager {
    var entries: map<string, string>

    /** The manager over the entries loaded from the vault file (empty when there is none). */
    constructor (loaded: map<string, string>)
      ensures entries == loaded
    {
      entries := loaded;
    }

    /**
     * `add_entry`: inserts or overwrites, then persists. `persist` is the outcome of
     * serialising, encrypting and writing the new map; it is returned as is, and the
     * map stays changed even when it failed.
     */
    method AddEntry(name: string, password: string, persist: Outcome<string>) returns (r: Outcome<string>)
      modifies this
      ensures entries == old(entries)[name := password]
      ensures r == persist
    {
      entries := entries[name := password];
      r := persist;
    }

    /** `get_entry`: the stored password, if any; never fails and changes nothing. */
    method GetEntry(name: string) returns (r: Result<Option<string>, string>)
      ensures r.Ok?
      ensures r.value.Some? <==> name in entries
      ensures r.value.Some? ==> r.value.value == entries[name]
    {
      if name in entries {
        r := Ok(Some(entries[name]));
      } else {
        r := Ok(None);
      }
    }

    /** `update_entry`: only an existing name is replaced; a missing one is an error and nothing changes. */
    method UpdateEntry(name: string, password: string, persist: Outcome<string>) returns (r: Outcome<string>)
      modifies this
      ensures name in old(entries) ==> entries == old(entries)[name := password] && r == persist
      ensures name !in old(entries) ==> entries == old(entries) && r == Fail(EntryNotFound)
    {
      if name in entries {
        entries := entries[name := password];
        r := persist;
      } else {
        r := Fail(EntryNotFound);
      }
    }

    /** `delete_entry`: removes exactly the named entry; a missing one is an error and nothing changes. */
    method DeleteEntry(name: string, persist: Outcome<string>) returns (r: Outcome<string>)
      modifies this
      ensures name in old(entries) ==> entries == old(entries) - {name} && r == persist
      ensures name !in old(entries) ==> entries == old(entries) && r == Fail(EntryNotFound)
    {
      if name in entries {
        entries := entries - {name};
        r := persist;
      } else {
        r := Fail(EntryNotFound);
      }
    }
  }

  /**
   * After an add, whatever its persistence outcome, the name reads back the new
   * password and every other name reads back what it did before.
   */
  method AddThenGet(vault: PasswordManager, name: string, password: string, other: string, persist: Outcome<string>)
    returns (got: Result<Option<string>, string>, otherBefore: Result<Option<string>, string>, otherAfter: Result<Option<string>, string>)
    modifies vault
    ensures got == Ok(Some(password))
    ensures other != name ==> otherAfter == otherBefore
  {
    otherBefore := vault.GetEntry(other);
    var _ := vault.AddEntry(name, password, persist);
    got := vault.GetEntry(name);
    otherAfter := vault.GetEntry(other);
  }

  /** Deleting a name makes it unreadable and a second delete fails. */
  method DeleteTwice(vault: PasswordManager, name: string, persist: Outcome<string>)
    returns (first: Outcome<string>, second: Outcome<string>, got: Result<Option<string>, string>)
    requires name in vault.entries
    modifies vault
    ensures first == persist && second == Fail(EntryNotFound) && got == Ok(None)
  {
    first := vault.DeleteEntry(name, persist);
    second := vault.DeleteEntry(name, persist);
    got := vault.GetEntry(name);
  }

  /** Updating a name that was never added fails and leaves the vault as it was. */
  method UpdateMissing(vault: PasswordManager, name: string, password: string, persist: Outcome<string>)
    returns (r: Outcome<string>)
    requires name !in vault.entries
    modifies vault
    ensures r == Fail(EntryNotFound) && vault.entries == old(vault.entries)
  {
    r := vault.UpdateEntry(name, password, persist);
  }
}
