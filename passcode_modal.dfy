/**
 * The passcode dialog that opens when the daily quota is used up: a password input
 * (`code`), an "incorrect passcode" flag (`error`) and an Unlock button. The dialog does not
 * check the passcode itself; it hands the trimmed input to its owner's verifier and asks its
 * owner to close it when the verifier accepts.
 */
module Passcode {
  import opened JsText

  class PasscodeModal {
    var code: string
    var error: bool

    /** useState("") and useState(false). */
    constructor ()
      ensures code == "" && !error
    {
      code := "";
      error := false;
    }

    /** The input's onChange: the field takes the new text and the error message goes away. */
    method Edit(value: string)
      modifies this
      ensures code == value && !error
    {
      code := value;
      error := false;
    }

    /** The Unlock button is disabled exactly when the input is empty or all white space. */
    predicate SubmitDisabled()
      reads this
      ensures SubmitDisabled() <==> forall k :: 0 <= k < |code| ==> IsWhiteSpace(code[k])
    {
      Trim(code) == []
    }

    /** What handleSubmit hands to the verifier: the input without surrounding white space. */
    function Submitted(): (sent: string)
      reads this
      ensures sent != [] ==> !IsWhiteSpace(sent[0]) && !IsWhiteSpace(sent[|sent| - 1])
      ensures sent == [] <==> SubmitDisabled()
    {
      Trim(code)
    }

    /** The rest of handleSubmit, once the verifier has answered `accepted` for Submitted():
        on acceptance the owner is asked to close the dialog and nothing else changes; on
        rejection the error shows and the input is cleared for another try. */
    method Submit(accepted: bool) returns (closeRequested: bool)
      modifies this
      ensures closeRequested == accepted
      ensures accepted ==> code == old(code) && error == old(error)
      ensures !accepted ==> code == "" && error
    {
      if accepted {
        closeRequested := true;
      } else {
        error := true;
        code := "";
        closeRequested := false;
      }
    }
  }
}
