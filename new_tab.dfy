/** The part of the new-tab page's state the card and history operations
    change: `state.config.cards` and `state.config.searchHistory`. Each method
    does what the page does step by step and is proved to leave the list its
    function in `CardList` or `SearchBox` describes. */
module NewTab {
  import opened JsonValue
  import ConfigMerge
  import SearchBox
  import CardList

  class NewTabPage {
    var cards: seq<Json>
    var history: seq<string>

    /** The page with the lists read from its configuration (`|| []` already
        applied). */
    constructor (cards: seq<Json>, history: seq<string>)
      ensures this.cards == cards && this.history == history
    {
      this.cards := cards;
      this.history := history;
    }

    /** `addToHistory(term)`: copy the list, splice out the old copy,
        `unshift` the term and `pop` past 20. */
    method AddToHistory(term: string)
      modifies this
      ensures history == SearchBox.AddedToHistory(old(history), term)
      ensures cards == old(cards)
    {
      var next := history;
      var existingIndex := SearchBox.IndexOf(next, term);
      if existingIndex > -1 {
        next := next[..existingIndex] + next[existingIndex + 1..];
      }
      next := [term] + next;
      if |next| > SearchBox.MaxHistory {
        next := next[..|next| - 1];
      }
      history := next;
    }

    /** `addCard({ title, url, icon })` with the id the page would draw. */
    method AddCard(id: string, title: Json, url: Json, icon: Json)
      modifies this
      ensures cards == CardList.AddedCard(old(cards), id, title, url, icon)
      ensures history == old(history)
    {
      var next := cards;
      next := [CardList.NewCard(id, title, url, icon)] + next;
      cards := next;
    }

    /** `updateCard({ id, title, url, icon })`. */
    method UpdateCard(id: string, title: Json, url: Json, icon: Json)
      modifies this
      ensures cards == CardList.UpdatedCards(old(cards), id, title, url, icon)
      ensures history == old(history)
    {
      var next := cards;
      var index := CardList.FindIndex(next, id);
      if index == -1 {
        return;
      }
      var patch := map["title" := title, "url" := url];
      var card := next[index].fields;
      if Truthy(icon) {
        patch := patch["icon" := icon];
      } else {
        card := card - {"icon"};
      }
      next := next[index := JObj(card + patch)];
      cards := next;
    }

    /** `reorderCards(draggedId, targetId)`: splice the dragged card out, then
        splice it in at the target's index. */
    method ReorderCards(draggedId: string, targetId: string)
      modifies this
      ensures cards == CardList.Reordered(old(cards), draggedId, targetId)
      ensures history == old(history)
    {
      var next := cards;
      var fromIndex := CardList.FindIndex(next, draggedId);
      var toIndex := CardList.FindIndex(next, targetId);
      if fromIndex == -1 || toIndex == -1 {
        return;
      }
      var moved := next[fromIndex];
      next := next[..fromIndex] + next[fromIndex + 1..];
      assert next == CardList.RemoveAt(old(cards), fromIndex);
      next := next[..toIndex] + [moved] + next[toIndex..];
      assert next == CardList.InsertAt(CardList.RemoveAt(old(cards), fromIndex), toIndex, moved);
      cards := next;
    }

    /** `deleteCard(id)`. */
    method DeleteCard(id: string)
      modifies this
      ensures cards == CardList.Deleted(old(cards), id)
      ensures history == old(history)
    {
      cards := CardList.Deleted(cards, id);
    }
  }

  /** Saving a list with `saveConfig({ [key]: list })` stores exactly that
      list: the background worker merges the patch into the configuration,
      and an array replaces whatever was there. Every other setting is kept. */
  lemma SavedListStored(config: Json, key: string, list: seq<Json>)
    requires ConfigMerge.IsMergeBase(config)
    ensures var saved := ConfigMerge.Merge(config, JObj(map[key := JArr(list)]));
      && Get(saved, key) == JArr(list)
      && (forall k :: k in ConfigMerge.Spread(config) && k != key ==> Get(saved, k) == ConfigMerge.Spread(config)[k])
  {
    var patch := JObj(map[key := JArr(list)]);
    assert ConfigMerge.IsPatchObject(patch);
    assert Entries(patch) == map[key := JArr(list)];
    assert !ConfigMerge.MergesRecursively(config, key, JArr(list));
  }
}
