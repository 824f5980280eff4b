/**
 * `BankingInfo`: bank details whose account and routing numbers are kept
 * only encrypted, and shown only masked. The cipher is the
 * application's signer; its two directions are inputs here: `encrypt`,
 * and `decrypt`, which gives `None` where decryption raises.
 */
module BankingInfo {
  import opened Wrappers

  /** Decryption raised (a bad token, or bytes that are not UTF-8). */
  datatype CipherError = CipherError

  /** `"*" * n`. */
  function Stars(n: nat): (r: string)
    ensures |r| == n
    ensures forall i :: 0 <= i < n ==> r[i] == '*'
  {
    seq(n, _ => '*')
  }

  /**
   * The masking both masked properties share: as long as the plaintext,
   * all stars up to four characters, otherwise stars followed by the last four.
   */
  function Mask(plain: string): (r: string)
    ensures |r| == |plain|
    ensures |plain| <= 4 ==> forall i :: 0 <= i < |r| ==> r[i] == '*'
    ensures forall i :: 0 <= i < |r| - 4 ==> r[i] == '*'
    ensures |plain| > 4 ==> r[|r| - 4..] == plain[|plain| - 4..]
  {
    if |plain| <= 4 then Stars(|plain|) else Stars(|plain| - 4) + plain[|plain| - 4..]
  }

  /** The mask depends only on the length and the last four characters: nothing else leaks. */
  lemma MaskHidesTheRest(a: string, b: string)
    requires |a| == |b|
    requires |a| > 4 ==> a[|a| - 4..] == b[|b| - 4..]
    ensures Mask(a) == Mask(b)
  {
  }

  /** The masked text shows the plaintext's last four characters whenever there are more than four. */
  lemma MaskKeepsSuffix(plain: string)
    requires |plain| > 4
    ensures forall i :: |plain| - 4 <= i < |plain| ==> Mask(plain)[i] == plain[i]
  {
  }

  /** Every decryption failure masks to the same four stars. */
  const FailedMask: string := "****"
  /** What a missing routing number shows. */
  const NoRouting: string := "N/A"

  class BankingInfo {
    var encryptedAccountNumber: string
    var encryptedRoutingNumber: Option<string>
    var isActive: bool

    /**
     * `create_with_encryption`: the account number is always encrypted; the
     * routing number only when it is truthy, so an empty one is stored as `None`.
     */
    constructor CreateWithEncryption(accountNumber: string, routingNumber: Option<string>, isActive: bool, encrypt: string -> string)
      ensures encryptedAccountNumber == encrypt(accountNumber)
      ensures routingNumber.Some? && routingNumber.value != "" ==> encryptedRoutingNumber == Some(encrypt(routingNumber.value))
      ensures routingNumber.None? || routingNumber.value == "" ==> encryptedRoutingNumber == None
      ensures this.isActive == isActive
    {
      encryptedAccountNumber := encrypt(accountNumber);
      this.isActive := isActive;
      if routingNumber.Some? && routingNumber.value != "" {
        encryptedRoutingNumber := Some(encrypt(routingNumber.value));
      } else {
        encryptedRoutingNumber := None;
      }
    }

    /** `decrypt_routing_number`: `None` when nothing is stored, otherwise the decryption, which may raise. */
    function DecryptRoutingNumber(decrypt: string -> Option<string>): (r: Result<Option<string>, CipherError>)
      reads this
      ensures encryptedRoutingNumber.None? ==> r == Ok(None)
      ensures r.Err? ==> encryptedRoutingNumber.Some? && decrypt(encryptedRoutingNumber.value).None?
      ensures r.Ok? && r.value.Some? ==> encryptedRoutingNumber.Some? && decrypt(encryptedRoutingNumber.value) == r.value
      ensures encryptedRoutingNumber.Some? && decrypt(encryptedRoutingNumber.value).None? ==> r == Err(CipherError)
      ensures encryptedRoutingNumber.Some? && decrypt(encryptedRoutingNumber.value).Some? ==>
        r == Ok(decrypt(encryptedRoutingNumber.value))
    {
      match encryptedRoutingNumber
      case None => Ok(None)
      case Some(cipher) =>
        match decrypt(cipher)
        case None => Err(CipherError)
        case Some(plain) => Ok(Some(plain))
    }

    /** `masked_account_number`: the mask of the decrypted number, or four stars when decryption raises. */
    function MaskedAccountNumber(decrypt: string -> Option<string>): (r: string)
      reads this
      ensures decrypt(encryptedAccountNumber).None? ==> r == FailedMask
      ensures decrypt(encryptedAccountNumber).Some? ==>
        |r| == |decrypt(encryptedAccountNumber).value| && r == Mask(decrypt(encryptedAccountNumber).value)
    {
      match decrypt(encryptedAccountNumber)
      case None => FailedMask
      case Some(plain) => Mask(plain)
    }

    /** `masked_routing_number`: "N/A" without a routing number, four stars when decryption raises, else the mask. */
    function MaskedRoutingNumber(decrypt: string -> Option<string>): (r: string)
      reads this
      ensures encryptedRoutingNumber.None? ==> r == NoRouting
      ensures DecryptRoutingNumber(decrypt).Err? ==> r == FailedMask
      ensures DecryptRoutingNumber(decrypt).Ok? && DecryptRoutingNumber(decrypt).value.Some? ==>
        r == Mask(DecryptRoutingNumber(decrypt).value.value)
    {
      match DecryptRoutingNumber(decrypt)
      case Err(_) => FailedMask
      case Ok(None) => NoRouting
      case Ok(Some(plain)) => Mask(plain)
    }

    /** `update_account_number`: stores the new number encrypted; a decryption that inverts the cipher masks it back. */
    method UpdateAccountNumber(accountNumber: string, encrypt: string -> string, decrypt: string -> Option<string>)
      modifies this
      ensures encryptedAccountNumber == encrypt(accountNumber)
      ensures encryptedRoutingNumber == old(encryptedRoutingNumber) && isActive == old(isActive)
      ensures decrypt(encrypt(accountNumber)) == Some(accountNumber) ==> MaskedAccountNumber(decrypt) == Mask(accountNumber)
    {
      encryptedAccountNumber := encrypt(accountNumber);
    }

    /**
     * `update_routing_number`: `None` clears the field, anything else
     * (the empty string included) is stored encrypted.
     */
    method UpdateRoutingNumber(routingNumber: Option<string>, encrypt: string -> string, decrypt: string -> Option<string>)
      modifies this
      ensures routingNumber.None? ==> encryptedRoutingNumber == None && MaskedRoutingNumber(decrypt) == NoRouting
      ensures routingNumber.Some? ==> encryptedRoutingNumber == Some(encrypt(routingNumber.value))
      ensures routingNumber.Some? && decrypt(encrypt(routingNumber.value)) == routingNumber ==>
        MaskedRoutingNumber(decrypt) == Mask(routingNumber.value)
      ensures encryptedAccountNumber == old(encryptedAccountNumber) && isActive == old(isActive)
    {
      if routingNumber.None? {
        encryptedRoutingNumber := None;
      } else {
        encryptedRoutingNumber := Some(encrypt(routingNumber.value));
      }
    }
  }

  /** A shown number never reveals more than its last four characters, whatever the cipher does. */
  lemma MaskedShowsAtMostFour(b: BankingInfo, decrypt: string -> Option<string>)
    ensures var r := b.MaskedAccountNumber(decrypt);
      forall i :: 0 <= i < |r| - 4 ==> r[i] == '*'
  {
  }
}
