/** Every exception the modelled core raises, one constructor per exception
    class. The string argument is what the source passes as the exception's
    `receipt` argument (a receipt ID or the offending receipt string). */
module Errors {

  datatype Error =
    // librksv/utils.py
    | InvalidKey
    | TypeError                         // raised by the base64 alphabet gates
    | BinasciiError                     // raised by the library decoder itself
    // librksv/receipt.py
    | MalformedReceipt(at: string)
    | UnknownAlgorithm(at: string)
    | AlgorithmMismatch(at: string)
    | CertSerialInvalid(at: string)
    | InvalidCertificateProvider(at: string)
    | NotSigned                         // "You need to sign the receipt first."
    | NotDecryptable                    // decryptTurnoverCounter on a dummy or reversal
    // librksv/verify_receipt.py
    | CertSerialMismatch(at: string)
    | NoPublicKey(at: string)
    | InvalidSignature(at: string)
    | SignatureSystemFailed(at: string)
    | UnsignedNullReceipt(at: string)
    // librksv/verify.py
    | ClusterInOpenSystem
    | Chaining(at: string, previousChain: string)
    | NoRestoreReceiptAfterSignatureSystemFailure(at: string)
    | InvalidTurnoverCounter(at: string)
    | ChangingRegisterId(at: string)
    | DecreasingDate(at: string)
    | ChangingSystemType(at: string)
    | NoCertificateGiven
    | UntrustedCertificate(keyId: string)
    | CertificateChainBroken(keyId: string, signerKeyId: string)
    | CertificateSerialCollision(keyId: string)
    | SignatureSystemFailedOnInitialReceipt(at: string)
    | NonzeroTurnoverOnInitialReceipt(at: string)
    | InvalidChainingOnInitialReceipt(at: string)
    | InvalidChainingOnClusterInitialReceipt(at: string)
    | NonstandardTypeOnInitialReceipt(at: string)
    | ValueError                        // Python's range() with a zero step
    | ZeroDivisionError                 // a float division by zero
    // librksv/verification_state.py (not part of this model, used through its interface)
    | DuplicateReceiptId(at: string)
    | InvalidCashRegisterIndex(index: int)
    // verification_state.py (the command-line tool)
    | IndexError                        // a register index outside the list

  /** The exceptions derived from receipt.ReceiptException: the ones the
      stderr-reporting verifier catches and only prints. */
  predicate IsReceiptException(e: Error) {
    e.MalformedReceipt? || e.UnknownAlgorithm? || e.AlgorithmMismatch? ||
    e.CertSerialInvalid? || e.InvalidCertificateProvider? ||
    e.CertSerialMismatch? || e.NoPublicKey? || e.InvalidSignature? ||
    e.SignatureSystemFailed? || e.UnsignedNullReceipt?
  }
}
