/**
 * The clipboard providers and the choice `main` makes between them when `--copy` is given.
 * The escape sequence a provider writes is left to an oracle.
 */
module Clipboard {
  import opened Wrappers

  /** `ClipboardProvider`: the two terminal escape protocols. */
  datatype ClipboardProvider = Osc52 | Osc5522

  /**
   * `ClipboardProvider::copy_to_clipboard`: the escape sequence, written to standard output,
   * that hands a text to the terminal's clipboard.
   */
  type CopyEscape = (ClipboardProvider, string) -> string

  /** The name that selects a provider for the test hook. */
  function ProviderName(p: ClipboardProvider): string
  {
    match p
    case Osc52 => "osc52"
    case Osc5522 => "osc5522"
  }

  const NoProviderError: string := "Error: Failed to initialize clipboard"

  function InvalidProviderError(name: string): string
  {
    "Error: Invalid test provider '" + name + "'"
  }

  /**
   * The provider choice of `main`: none without `copy`; with `copy`, the provider the test
   * name names, and otherwise the message `main` prints before exiting with status 1.
   */
  function ChooseProvider(copy: bool, testProvider: Option<string>): (r: Result<Option<ClipboardProvider>, string>)
    ensures !copy ==> r == Ok(None)
    ensures copy && r.Ok? ==> r.value.Some? && testProvider == Some(ProviderName(r.value.value))
    ensures copy && testProvider.None? ==> r == Err(NoProviderError)
    ensures copy && testProvider.Some? && (forall p :: ProviderName(p) != testProvider.value)
            ==> r == Err(InvalidProviderError(testProvider.value))
  {
    if !copy then Ok(None)
    else
      match testProvider
      case None => Err(NoProviderError)
      case Some(name) =>
        if name == "osc52" then Ok(Some(Osc52))
        else if name == "osc5522" then Ok(Some(Osc5522))
        else Err(InvalidProviderError(name))
  }

  /** Each provider is chosen by its own name, so the choice and the name are inverses. */
  lemma ChosenByName(p: ClipboardProvider)
    ensures ChooseProvider(true, Some(ProviderName(p))) == Ok(Some(p))
  {
  }
}
