/** The first step of a one-time campaign (DataSourceStep.tsx): a chosen CSV
    file and the wallet-action inputs, of which the credit amount is a
    digit-filtered text box. Next hands the file and a flat wallet action to
    the flow. */
module DataSourceStep {
  import opened Js

  /** A file picked in the uploader: its name and its text. */
  datatype UploadedFile = UploadedFile(name: string, content: string)

  /** The client's wallet action; its credit type is always "flat". */
  datatype WalletAction = WalletAction(creditWallet: string, walletId: string, creditType: string, creditAmount: int)

  const DefaultCreditWallet := "Credit Wallet"
  const DefaultWalletId := "razorpay_wallet_test_sto"
  const DefaultCreditAmount := "100"

  /** The amount text a step opens with: the initial amount when it is truthy
      (non-zero), "100" otherwise. */
  function InitialAmountText(initial: Option<WalletAction>): (t: string)
    ensures initial.None? ==> t == DefaultCreditAmount
    ensures initial.Some? && initial.value.creditAmount != 0 ==> ParseInt(t) == Some(initial.value.creditAmount)
  {
    if initial.Some? && initial.value.creditAmount != 0 then
      IntToStringRoundTrip(initial.value.creditAmount);
      IntToString(initial.value.creditAmount)
    else DefaultCreditAmount
  }

  class DataSource {
    var selectedFile: Option<UploadedFile>
    var creditWallet: string
    var walletId: string
    var creditAmount: string

    /** The step as it opens: no file, the initial wallet action's fields when
        given and non-empty, the defaults otherwise. */
    constructor(initial: Option<WalletAction>)
      ensures selectedFile == None
      ensures creditWallet == if initial.Some? && initial.value.creditWallet != "" then initial.value.creditWallet
                              else DefaultCreditWallet
      ensures walletId == if initial.Some? && initial.value.walletId != "" then initial.value.walletId
                          else DefaultWalletId
      ensures creditAmount == InitialAmountText(initial)
    {
      selectedFile := None;
      creditWallet := if initial.Some? && initial.value.creditWallet != "" then initial.value.creditWallet
                      else DefaultCreditWallet;
      walletId := if initial.Some? && initial.value.walletId != "" then initial.value.walletId
                  else DefaultWalletId;
      creditAmount := InitialAmountText(initial);
    }

    /** The uploader's file callback. */
    method SelectFile(f: Option<UploadedFile>)
      modifies this
      ensures selectedFile == f
      ensures creditWallet == old(creditWallet) && walletId == old(walletId) && creditAmount == old(creditAmount)
    {
      selectedFile := f;
    }

    /** handleAmountChange: only the digits of what was typed are kept, all of
        them, in order. */
    method HandleAmountChange(typed: string)
      modifies this
      ensures creditAmount == DigitsOnly(typed)
      ensures AllDigits(creditAmount)
      ensures forall c :: c in creditAmount <==> c in typed && IsDigit(c)
      ensures selectedFile == old(selectedFile) && creditWallet == old(creditWallet) && walletId == old(walletId)
    {
      creditAmount := DigitsOnly(typed);
      forall c {
        DigitsOnlyKeeps(typed, c);
      }
    }

    /** The Next button's `disabled`: no file, no amount, or an amount that
        parses to 0. */
    predicate NextDisabled()
      reads this
    {
      selectedFile.None? || creditAmount == "" || ParseInt(creditAmount) == Some(0)
    }

    /** For a digit-only amount, as the text box keeps it, Next is disabled
        exactly when there is no file or the amount's decimal value is 0. */
    lemma DigitAmountGatesNext()
      requires AllDigits(creditAmount)
      ensures NextDisabled() <==> selectedFile.None? || DecimalValue(creditAmount) == 0
    {
      DigitAmountEnablesNext(creditAmount);
    }

    /** handleNext: nothing without a file; otherwise the file and a flat
        wallet action whose amount is `parseInt(creditAmount) || 0`. */
    method HandleNext() returns (emitted: Option<(UploadedFile, WalletAction)>)
      ensures selectedFile.None? <==> emitted.None?
      ensures emitted.Some? ==> emitted.value.0 == selectedFile.value
      ensures emitted.Some? ==>
        emitted.value.1 == WalletAction(creditWallet, walletId, "flat", ParseIntOr(creditAmount, 0))
    {
      if selectedFile.None? {
        return None;
      }
      emitted := Some((selectedFile.value, WalletAction(creditWallet, walletId, "flat", ParseIntOr(creditAmount, 0))));
    }
  }

  /** For a digit-only amount, as the text box keeps it, the Next button is
      enabled exactly when a file is chosen and the amount's decimal value is
      positive, and the emitted credit amount is then that value. */
  lemma DigitAmountEnablesNext(amount: string)
    requires AllDigits(amount)
    ensures (amount == "" || ParseInt(amount) == Some(0)) <==> DecimalValue(amount) == 0
    ensures ParseIntOr(amount, 0) == DecimalValue(amount)
  {
    if amount != "" {
      ParseIntOfDigits(amount);
    }
  }
}
