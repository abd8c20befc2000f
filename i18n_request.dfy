/**
 * Per-request message loading: which locale is served, and how the
 * per-file message maps are merged, English first and the locale's own
 * messages over them.
 */
module I18nRequest {
  import opened Wrappers

  /** A flat message catalogue, key to text. */
  type Messages = map<string, string>

  /** The supported locales and the one used when no locale matches. */
  const Locales: seq<string> := ["ar", "en"]
  const DefaultLocale: string := "en"

  /** The message files loaded for every locale, in load order. */
  const MessageFiles: seq<string> := ["home", "contactUs", "footer", "header", "error", "notFound"]

  /** `hasLocale(routing.locales, requested) ? requested : routing.defaultLocale`. */
  function ResolveLocale(requested: Option<string>): (locale: string)
    ensures locale in Locales
    ensures requested.Some? && requested.value in Locales ==> locale == requested.value
    ensures requested.None? || requested.value !in Locales ==> locale == DefaultLocale
  {
    if requested.Some? && requested.value in Locales then requested.value else DefaultLocale
  }

  /**
   * The accumulator after the loop over `loads`, one entry per file in
   * order: `{ ...acc, ...fileMessages }` for a file that loaded, nothing for
   * one whose import threw.
   */
  function Accumulate(loads: seq<Option<Messages>>): Messages
    decreases |loads|
  {
    if loads == [] then map[]
    else
      var acc := Accumulate(loads[..|loads| - 1]);
      match loads[|loads| - 1]
      case Some(m) => acc + m
      case None => acc
  }

  /** A key is merged exactly when some file that loaded defines it. */
  lemma {:induction false} AccumulateKeys(loads: seq<Option<Messages>>, key: string)
    ensures key in Accumulate(loads) <==>
      exists i :: 0 <= i < |loads| && loads[i].Some? && key in loads[i].value
    decreases |loads|
  {
    if loads != [] {
      var n := |loads| - 1;
      AccumulateKeys(loads[..n], key);
      assert forall i :: 0 <= i < n ==> loads[..n][i] == loads[i];
    }
  }

  /** The file that defines a key last gives its merged value. */
  lemma {:induction false} AccumulateLastWins(loads: seq<Option<Messages>>, key: string, i: int)
    requires 0 <= i < |loads| && loads[i].Some? && key in loads[i].value
    requires forall j :: i < j < |loads| && loads[j].Some? ==> key !in loads[j].value
    ensures key in Accumulate(loads) && Accumulate(loads)[key] == loads[i].value[key]
    decreases |loads|
  {
    var n := |loads| - 1;
    if i < n {
      AccumulateLastWins(loads[..n], key, i);
    }
  }

  /** A file that fails to load contributes nothing; the others still merge. */
  lemma {:induction false} AccumulateSkipsFailed(
    before: seq<Option<Messages>>, after: seq<Option<Messages>>)
    ensures Accumulate(before + [None] + after) == Accumulate(before + after)
    decreases |after|
  {
    if after == [] {
      assert (before + [None] + after)[..|before|] == before;
      assert before + after == before;
    } else {
      var n := |after| - 1;
      AccumulateSkipsFailed(before, after[..n]);
      assert (before + [None] + after)[..|before| + n + 1] == before + [None] + after[..n];
      assert (before + after)[..|before| + n] == before + after[..n];
    }
  }

  /** `deepmerge(base, over)` on flat catalogues: `over` wins on shared keys. */
  function Overlay(base: Messages, over: Messages): (r: Messages)
    ensures r.Keys == base.Keys + over.Keys
    ensures forall k :: k in over ==> r[k] == over[k]
    ensures forall k :: k in base && k !in over ==> r[k] == base[k]
  {
    base + over
  }

  /** The loader's results for `locale`, one per message file. */
  function LoadsFor(locale: string, load: (string, string) -> Option<Messages>): seq<Option<Messages>> {
    seq(|MessageFiles|, i requires 0 <= i < |MessageFiles| => load(locale, MessageFiles[i]))
  }

  /** The catalogue served: English alone for "en", else the locale's over English. */
  function ServedMessages(locale: string, english: Messages, localized: Messages): Messages {
    if locale == DefaultLocale then english else Overlay(english, localized)
  }

  /** The request configuration returned: the locale and its messages. */
  datatype RequestConfig = RequestConfig(locale: string, messages: Messages)

  /**
   * The request handler. `load(locale, file)` stands for the dynamic import
   * of that file's JSON (`None` when the import throws); `imports` lists the
   * imports it attempts, in order.
   */
  method GetRequestConfig(requested: Option<string>, load: (string, string) -> Option<Messages>)
    returns (config: RequestConfig, imports: seq<(string, string)>)
    ensures config.locale == ResolveLocale(requested)
    ensures config.messages == ServedMessages(
      config.locale, Accumulate(LoadsFor(DefaultLocale, load)), Accumulate(LoadsFor(config.locale, load)))
    ensures imports ==
      seq(|MessageFiles|, i requires 0 <= i < |MessageFiles| => (DefaultLocale, MessageFiles[i]))
      + if config.locale == DefaultLocale then []
        else seq(|MessageFiles|, i requires 0 <= i < |MessageFiles| => (config.locale, MessageFiles[i]))
  {
    var locale := ResolveLocale(requested);
    var defaultMessages: Messages := map[];
    var userMessages: Messages := map[];
    imports := [];

    var k := 0;
    while k < |MessageFiles|
      invariant 0 <= k <= |MessageFiles|
      invariant defaultMessages == Accumulate(LoadsFor(DefaultLocale, load)[..k])
      invariant imports == seq(k, i requires 0 <= i < k => (DefaultLocale, MessageFiles[i]))
    {
      var file := MessageFiles[k];
      imports := imports + [(DefaultLocale, file)];
      var result := load(DefaultLocale, file);
      if result.Some? {
        defaultMessages := defaultMessages + result.value;
      }
      assert LoadsFor(DefaultLocale, load)[..k + 1][..k] == LoadsFor(DefaultLocale, load)[..k];
      k := k + 1;
    }
    assert LoadsFor(DefaultLocale, load)[..k] == LoadsFor(DefaultLocale, load);
    ghost var englishImports := imports;

    if locale != DefaultLocale {
      k := 0;
      while k < |MessageFiles|
        invariant 0 <= k <= |MessageFiles|
        invariant userMessages == Accumulate(LoadsFor(locale, load)[..k])
        invariant imports == englishImports + seq(k, i requires 0 <= i < k => (locale, MessageFiles[i]))
      {
        var file := MessageFiles[k];
        imports := imports + [(locale, file)];
        var result := load(locale, file);
        if result.Some? {
          userMessages := userMessages + result.value;
        }
        assert LoadsFor(locale, load)[..k + 1][..k] == LoadsFor(locale, load)[..k];
        k := k + 1;
      }
      assert LoadsFor(locale, load)[..k] == LoadsFor(locale, load);
    }

    var messages := if locale == DefaultLocale then defaultMessages else Overlay(defaultMessages, userMessages);
    config := RequestConfig(locale, messages);
  }

  /**
   * For a locale other than English every English key is served, the
   * locale's text wins where both define a key, and English fills the rest;
   * for English the English catalogue is served as it is.
   */
  lemma ServedMessagesSpec(locale: string, english: Messages, localized: Messages)
    ensures locale == DefaultLocale ==> ServedMessages(locale, english, localized) == english
    ensures locale != DefaultLocale ==>
      && english.Keys <= ServedMessages(locale, english, localized).Keys
      && (forall k :: k in localized ==> ServedMessages(locale, english, localized)[k] == localized[k])
      && (forall k :: k in english && k !in localized ==>
            ServedMessages(locale, english, localized)[k] == english[k])
  {
  }
}
