/** The local history panel of src/components/HistoryPanel.tsx: the prompt preview of
    each card, the controls it shows, and the "clear all" action. Its relative-time
    label is `RelativeTime.TimeAgo`, written out identically in the panel. */
module HistoryPanel {
  import HistoryStore

  /** The number of prompt characters a card shows before the ellipsis. */
  const PreviewLimit := 100
  const Ellipsis := "..."

  /** The storage key the panel's "clear all" removes. */
  const LocalHistoryKey := "formily_local_history"

  /** The prompt preview of a card: a prompt of at most 100 characters is shown as is,
      a longer one is cut to 100 characters and followed by "...". */
  function PromptPreview(prompt: string): (r: string)
    ensures |prompt| <= PreviewLimit ==> r == prompt
    ensures |prompt| > PreviewLimit ==> |r| == PreviewLimit + |Ellipsis|
    ensures |prompt| > PreviewLimit ==> r[..PreviewLimit] == prompt[..PreviewLimit] && r[PreviewLimit..] == Ellipsis
    ensures |r| <= PreviewLimit + |Ellipsis|
  {
    if |prompt| > PreviewLimit then prompt[..PreviewLimit] + Ellipsis else prompt
  }

  /** The preview always begins with the prompt's first min(100, length) characters. */
  lemma PreviewKeepsPrefix(prompt: string)
    ensures var n := if |prompt| < PreviewLimit then |prompt| else PreviewLimit;
            n <= |PromptPreview(prompt)| && PromptPreview(prompt)[..n] == prompt[..n]
  {
  }

  /** The preview shows the prompt unchanged exactly when the prompt is short, or is
      itself 100 characters followed by "...". */
  lemma PreviewIsPromptIff(prompt: string)
    ensures PromptPreview(prompt) == prompt <==>
            |prompt| <= PreviewLimit || (|prompt| == PreviewLimit + |Ellipsis| && prompt[PreviewLimit..] == Ellipsis)
  {
    if |prompt| > PreviewLimit && PromptPreview(prompt) == prompt {
      assert |prompt| == PreviewLimit + |Ellipsis|;
      assert prompt[PreviewLimit..] == PromptPreview(prompt)[PreviewLimit..];
    }
    if |prompt| == PreviewLimit + |Ellipsis| && prompt[PreviewLimit..] == Ellipsis {
      assert prompt == prompt[..PreviewLimit] + prompt[PreviewLimit..];
    }
  }

  /** Previewing a preview changes nothing. */
  lemma PreviewIdempotent(prompt: string)
    ensures PromptPreview(PromptPreview(prompt)) == PromptPreview(prompt)
  {
    var r := PromptPreview(prompt);
    if |prompt| > PreviewLimit {
      PreviewIsPromptIff(r);
    }
  }

  /** What "clear all" does: the storage left behind, and the search term the parent
      is told to use. */
  datatype ClearEffects = ClearEffects(storage: HistoryStore.Storage, search: string)

  /** `handleClearAll`: remove the panel's storage key, close the dialog, and reset the
      parent's search to the empty string. */
  function ClearAll(storage: HistoryStore.Storage): (r: ClearEffects)
    ensures LocalHistoryKey !in r.storage
    ensures HistoryStore.OthersUnchanged(storage, r.storage, LocalHistoryKey)
    ensures r.search == ""
  {
    ClearEffects(map k | k in storage && k != LocalHistoryKey :: storage[k], "")
  }

  /** The key the panel clears is not the key `HistoryManager` keeps its records
      under, so clearing the panel leaves the stored history as it was. */
  lemma ClearAllKeepsStoredHistory(storage: HistoryStore.Storage)
    ensures HistoryStore.GetHistory(ClearAll(storage).storage) == HistoryStore.GetHistory(storage)
  {
    assert LocalHistoryKey != HistoryStore.HistoryKey by {
      assert LocalHistoryKey[8] != HistoryStore.HistoryKey[8];
    }
  }

  /** The controls a panel shows for a list of `count` records and a search term. */
  datatype Controls = Controls(clearButton: bool, searchBox: bool, clearSearch: bool)

  /** The clear button and the search box appear only for a non-empty list; the
      button that empties the search sits inside the search box and appears only
      while the term is non-empty. */
  function Visible(count: nat, searchTerm: string): (c: Controls)
    ensures c.clearButton <==> count > 0
    ensures c.searchBox <==> count > 0
    ensures c.clearSearch <==> c.searchBox && searchTerm != ""
  {
    Controls(count > 0, count > 0, count > 0 && searchTerm != "")
  }

  /** The button that empties the search only ever appears beside the clear button,
      and "clear all" hides it, whatever the list. */
  lemma ClearSearchFollowsControls(count: nat, searchTerm: string, storage: HistoryStore.Storage)
    ensures Visible(count, searchTerm).clearSearch ==> Visible(count, searchTerm).clearButton
    ensures !Visible(count, ClearAll(storage).search).clearSearch
  {
  }
}
