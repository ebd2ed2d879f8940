/** The account layouts that `tools/proof-harness/verifier-localnet.ts` reads. */
module AccountLayouts {
  import opened Outcomes
  import opened Bytes

  type Key = k: seq<Byte> | |k| == 32 witness seq(32, _ => 0)

  const VERIFIER_PROGRAM_ID: Key := [
    38, 33, 139, 148, 199, 221, 97, 53, 80, 14, 201, 144, 225, 175, 48, 17,
    203, 138, 123, 243, 166, 157, 70, 169, 134, 30, 49, 79, 55, 49, 255, 255]
  const BPF_LOADER_UPGRADEABLE: Key := [
    2, 168, 246, 145, 78, 136, 161, 176, 226, 16, 21, 62, 247, 99, 174, 43,
    0, 194, 185, 61, 22, 193, 36, 210, 192, 83, 122, 16, 4, 128, 0, 0]
  const GROTH16_SELECTOR: seq<Byte> := [0x52, 0x5a, 0x56, 0x4d]
  const VERIFIER_ENTRY_DISCRIMINATOR: seq<Byte> := [102, 247, 148, 158, 33, 153, 100, 93]
  const VERIFIER_ENTRY_ACCOUNT_LEN := 8 + 4 + 32 + 1
  const PROGRAM_DATA_ACCOUNT_TYPE := 3
  const PROGRAM_DATA_MIN_LEN := 4 + 8 + 1
  const PROGRAM_DATA_WITH_AUTHORITY_LEN := 4 + 8 + 1 + 32

  datatype ProgramData = ProgramData(slot: nat, upgradeAuthority: Option<Key>)
  datatype Account = Account(owner: Key, data: seq<Byte>)

  /** `isExpectedVerifierEntryData`. */
  predicate IsExpectedVerifierEntryData(data: seq<Byte>) {
    && |data| == VERIFIER_ENTRY_ACCOUNT_LEN
    && data[0..8] == VERIFIER_ENTRY_DISCRIMINATOR
    && data[8..12] == GROTH16_SELECTOR
    && data[12..44] == VERIFIER_PROGRAM_ID
    && data[44] == 0
  }

  /** `parseProgramDataAccount`. */
  function ParseProgramDataAccount(data: seq<Byte>): Option<ProgramData> {
    if |data| < PROGRAM_DATA_MIN_LEN then None
    else if LittleEndian(data[0..4]) != PROGRAM_DATA_ACCOUNT_TYPE then None
    else
      var slot := LittleEndian(data[4..12]);
      if data[12] == 0 then Some(ProgramData(slot, None))
      else if data[12] != 1 || |data| < PROGRAM_DATA_WITH_AUTHORITY_LEN then None
      else Some(ProgramData(slot, Some(data[13..45])))
  }

  /** `hasExpectedProgramDataAuthority`. */
  predicate HasExpectedProgramDataAuthority(account: Option<Account>, expectedAuthority: Key) {
    && account.Some? && account.value.owner == BPF_LOADER_UPGRADEABLE
    && match ParseProgramDataAccount(account.value.data)
       case Some(ProgramData(_, Some(authority))) => authority == expectedAuthority
       case _ => false
  }

  /** The bytes that begin a ProgramData account: type, slot, and an optional key behind a presence byte. */
  function Print(p: ProgramData): seq<Byte> {
    ToLittleEndian(PROGRAM_DATA_ACCOUNT_TYPE, 4) + ToLittleEndian(p.slot, 8)
    + match p.upgradeAuthority
      case None => [0]
      case Some(key) => [1] + key
  }

  predicate IsU64(n: nat) { n < Pow(256, 8) }

  lemma PrefixByParts(a: seq<Byte>, b: seq<Byte>, data: seq<Byte>)
    ensures a + b <= data <==> |a| <= |data| && a == data[..|a|] && b <= data[|a|..]
  {}

  lemma PrintIsPrefix(p: ProgramData, data: seq<Byte>)
    ensures Print(p) <= data <==>
            && |data| >= 12 && data[0..4] == ToLittleEndian(3, 4) && data[4..12] == ToLittleEndian(p.slot, 8)
            && (match p.upgradeAuthority case None => [0] case Some(key) => [1] + key) <= data[12..]
  {}

  /** The parser accepts exactly the byte strings that begin with the print of what it returns. */
  lemma ParsesExactlyPrints(data: seq<Byte>, p: ProgramData)
    ensures ParseProgramDataAccount(data) == Some(p) <==> IsU64(p.slot) && Print(p) <= data
  {
    hide ToLittleEndian, LittleEndian, Pow;
    PrintIsPrefix(p, data);
    if |data| >= 12 {
      LittleEndianExactly(data[0..4], 3);
      LittleEndianExactly(data[4..12], p.slot);
      assert 3 < Pow(256, 4) by { ThreeFits(); }
    }
    match p.upgradeAuthority
    case None => assert |data| >= 13 ==> ([0] <= data[12..] <==> data[12] == 0);
    case Some(key) =>
      if |data| >= 12 {
        PrefixByParts([1], key, data[12..]);
        if |data| >= 13 {
          assert data[12..][1..] == data[13..] && (data[12..][..1] == [1] <==> data[12] == 1);
          assert key <= data[13..] <==> |data| >= 45 && key == data[13..45] by {
            if |data| >= 45 { assert data[13..][..32] == data[13..45]; }
          }
        }
      }
  }

  lemma ThreeFits()
    ensures 3 < Pow(256, 4)
  {
    assert Pow(256, 4) == 256 * Pow(256, 3);
  }

  /** Printing and parsing back, with any bytes behind. */
  lemma ParsePrint(p: ProgramData, trailing: seq<Byte>)
    requires IsU64(p.slot)
    ensures ParseProgramDataAccount(Print(p) + trailing) == Some(p)
  {
    ParsesExactlyPrints(Print(p) + trailing, p);
  }

  /** Nothing is accepted when no print begins the data. */
  lemma RejectsExactly(data: seq<Byte>)
    ensures ParseProgramDataAccount(data).None? <==> forall p: ProgramData :: IsU64(p.slot) ==> !(Print(p) <= data)
  {
    hide Print, ParseProgramDataAccount, IsU64;
    forall p: ProgramData ensures ParseProgramDataAccount(data) == Some(p) <==> IsU64(p.slot) && Print(p) <= data {
      ParsesExactlyPrints(data, p);
    }
    if ParseProgramDataAccount(data).Some? {
      assert IsU64(ParseProgramDataAccount(data).value.slot);
    }
  }

  /** The check holds exactly for accounts of the loader whose data begin with the expected key, at some slot. */
  lemma AuthorityExactly(account: Option<Account>, key: Key)
    ensures HasExpectedProgramDataAuthority(account, key) <==>
            && account.Some? && account.value.owner == BPF_LOADER_UPGRADEABLE
            && exists slot :: IsU64(slot) && Print(ProgramData(slot, Some(key))) <= account.value.data
  {
    hide Print, ParseProgramDataAccount, IsU64;
    if account.Some? {
      var data := account.value.data;
      forall p: ProgramData ensures ParseProgramDataAccount(data) == Some(p) <==> IsU64(p.slot) && Print(p) <= data {
        ParsesExactlyPrints(data, p);
      }
    }
  }

  /** There is exactly one valid verifier entry. */
  lemma VerifierEntryExactly(data: seq<Byte>)
    ensures IsExpectedVerifierEntryData(data)
            <==> data == VERIFIER_ENTRY_DISCRIMINATOR + GROTH16_SELECTOR + VERIFIER_PROGRAM_ID + [0]
  {}
}
