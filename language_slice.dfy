/** The store slice holding the interface language. */
module LanguageSlice {
  /** The two interface languages. */
  datatype Lang = En | Ar

  /** The language's code, as the `lang` field spells it. */
  function Code(lang: Lang): (code: string)
    ensures code == "en" || code == "ar"
    ensures lang == En <==> code == "en"
    ensures lang == Ar <==> code == "ar"
  {
    match lang
    case En => "en"
    case Ar => "ar"
  }

  /** The language after `setLanguage` is dispatched with each payload in turn. */
  function AfterActions(lang: Lang, payloads: seq<Lang>): Lang
    decreases |payloads|
  {
    if payloads == [] then lang else AfterActions(payloads[0], payloads[1..])
  }

  /** After one or more `setLanguage` actions the last payload is the language. */
  lemma {:induction false} LastActionWins(lang: Lang, payloads: seq<Lang>)
    requires payloads != []
    ensures AfterActions(lang, payloads) == payloads[|payloads| - 1]
    decreases |payloads|
  {
    if |payloads| > 1 {
      LastActionWins(payloads[0], payloads[1..]);
    }
  }

  /**
   * Dispatching one batch of actions and then another is dispatching them in
   * sequence; with no action the language stays as it was.
   */
  lemma {:induction false} AfterActionsConcat(lang: Lang, first: seq<Lang>, second: seq<Lang>)
    ensures AfterActions(lang, first + second) == AfterActions(AfterActions(lang, first), second)
    decreases |first|
  {
    if first != [] {
      assert (first + second)[0] == first[0];
      assert (first + second)[1..] == first[1..] + second;
      AfterActionsConcat(first[0], first[1..], second);
    } else {
      assert first + second == second;
    }
  }

  /** The slice's state, which the reducer changes in place. */
  class LanguageState {
    var lang: Lang

    /** `initialState`. */
    constructor ()
      ensures lang == En
    {
      lang := En;
    }

    /** `setLanguage(payload)`: the payload becomes the language, whatever it was. */
    method SetLanguage(payload: Lang)
      modifies this
      ensures lang == payload
      ensures lang == AfterActions(old(lang), [payload])
    {
      lang := payload;
    }
  }
}
