/** The shortcut cards of the new-tab page: the lists `addCard`, `updateCard`,
    `reorderCards` and `deleteCard` compute before storing them. A card is a
    plain object with an `id`; ids are compared with `===` against the
    string id of the card the user acted on. */
module CardList {
  import opened JsonValue

  predicate HasId(card: Json, id: string) {
    Get(card, "id") == JStr(id)
  }

  /** `cards.findIndex((c) => c.id === id)`. */
  function FindIndex(cards: seq<Json>, id: string): (i: int)
    ensures -1 <= i < |cards|
    ensures i == -1 <==> forall j :: 0 <= j < |cards| ==> !HasId(cards[j], id)
    ensures i >= 0 ==> HasId(cards[i], id) && forall j :: 0 <= j < i ==> !HasId(cards[j], id)
  {
    if cards == [] then -1
    else if HasId(cards[0], id) then 0
    else
      var j := FindIndex(cards[1..], id);
      if j == -1 then -1 else j + 1
  }

  // ----- addCard -----

  /** The card `addCard` puts in front: `icon` only when it is truthy. The id
      is the fresh one `crypto.randomUUID()` would give. */
  function NewCard(id: string, title: Json, url: Json, icon: Json): (c: Json)
    ensures c.JObj? && HasId(c, id) && Get(c, "title") == title && Get(c, "url") == url
    ensures ("icon" in c.fields <==> Truthy(icon)) && (Truthy(icon) ==> Get(c, "icon") == icon)
  {
    var base := map["id" := JStr(id), "title" := title, "url" := url];
    JObj(if Truthy(icon) then base["icon" := icon] else base)
  }

  /** The list after `addCard`: the new card first, then the old list. */
  function AddedCard(cards: seq<Json>, id: string, title: Json, url: Json, icon: Json): seq<Json> {
    [NewCard(id, title, url, icon)] + cards
  }

  /** A card with a fresh id is the only one with that id after adding it. */
  lemma AddedCardFound(cards: seq<Json>, id: string, title: Json, url: Json, icon: Json)
    requires forall j :: 0 <= j < |cards| ==> !HasId(cards[j], id)
    ensures var r := AddedCard(cards, id, title, url, icon);
      FindIndex(r, id) == 0 && r[1..] == cards
      && forall j :: 1 <= j < |r| ==> !HasId(r[j], id)
  {
  }

  // ----- updateCard -----

  /** `{ ...card, ...patch }` where `patch` is `{ title, url }` plus `icon`
      when truthy, after `delete card.icon` when it is not. */
  function UpdatedFields(fields: map<string, Json>, title: Json, url: Json, icon: Json): map<string, Json> {
    if Truthy(icon) then fields + CardPatch(title, url, icon)
    else (fields - {"icon"}) + CardPatch(title, url, icon)
  }

  /** `{ title, url }`, with `icon` added when it is truthy. */
  function CardPatch(title: Json, url: Json, icon: Json): map<string, Json> {
    var patch := map["title" := title, "url" := url];
    if Truthy(icon) then patch["icon" := icon] else patch
  }

  /** The list after `updateCard`: unchanged when no card has the id,
      otherwise the first such card patched in place. */
  function UpdatedCards(cards: seq<Json>, id: string, title: Json, url: Json, icon: Json): seq<Json> {
    var i := FindIndex(cards, id);
    if i == -1 then cards
    else cards[i := JObj(UpdatedFields(cards[i].fields, title, url, icon))]
  }

  /** The patched card takes the new title and URL, has an icon exactly when a
      truthy one was given, and keeps every field the patch does not name. */
  lemma UpdatedFieldsSpec(fields: map<string, Json>, title: Json, url: Json, icon: Json)
    ensures var u := UpdatedFields(fields, title, url, icon);
      && "title" in u && u["title"] == title && "url" in u && u["url"] == url
      && ("icon" in u <==> Truthy(icon))
      && (Truthy(icon) ==> u["icon"] == icon)
      && (forall k :: k in fields && k != "title" && k != "url" && k != "icon" ==> k in u && u[k] == fields[k])
  {
  }

  /** Only the card with the id changes; it keeps its id and every field the
      patch does not name, takes the new title and URL, and has an icon
      exactly when a truthy one was given. */
  lemma UpdatedCardsSpec(cards: seq<Json>, id: string, title: Json, url: Json, icon: Json)
    ensures var r, i := UpdatedCards(cards, id, title, url, icon), FindIndex(cards, id);
      && |r| == |cards|
      && (i == -1 ==> r == cards)
      && (forall j :: 0 <= j < |cards| && j != i ==> r[j] == cards[j])
      && (i >= 0 ==>
            && r[i].JObj? && HasId(r[i], id)
            && Get(r[i], "title") == title && Get(r[i], "url") == url
            && ("icon" in r[i].fields <==> Truthy(icon))
            && (Truthy(icon) ==> Get(r[i], "icon") == icon)
            && (forall k :: k in cards[i].fields && k != "title" && k != "url" && k != "icon" ==>
                  k in r[i].fields && r[i].fields[k] == cards[i].fields[k]))
  {
    var i := FindIndex(cards, id);
    if i >= 0 {
      var fields := cards[i].fields;
      UpdatedFieldsSpec(fields, title, url, icon);
      var u := UpdatedFields(fields, title, url, icon);
      assert "id" in fields && "id" in u && u["id"] == fields["id"];
    }
  }

  // ----- reorderCards -----

  function RemoveAt(s: seq<Json>, k: nat): seq<Json>
    requires k < |s|
  {
    s[..k] + s[k + 1..]
  }

  function InsertAt(s: seq<Json>, k: nat, x: Json): seq<Json>
    requires k <= |s|
  {
    s[..k] + [x] + s[k..]
  }

  /** The list after `reorderCards(draggedId, targetId)`: unchanged when either
      id is missing; otherwise the dragged card is spliced out and spliced in
      again at the target's former index. */
  function Reordered(cards: seq<Json>, draggedId: string, targetId: string): seq<Json> {
    var from, to := FindIndex(cards, draggedId), FindIndex(cards, targetId);
    if from == -1 || to == -1 then cards
    else InsertAt(RemoveAt(cards, from), to, cards[from])
  }

  lemma RemoveInsert(s: seq<Json>, k: nat, x: Json)
    requires k <= |s|
    ensures RemoveAt(InsertAt(s, k, x), k) == s
  {
    var t := InsertAt(s, k, x);
    assert t[..k] == s[..k];
    assert t[k + 1..] == s[k..];
  }

  lemma MultisetRemoveAt(s: seq<Json>, k: nat)
    requires k < |s|
    ensures multiset(s) == multiset(RemoveAt(s, k)) + multiset{s[k]}
  {
    assert s == s[..k] + [s[k]] + s[k + 1..];
  }

  /** A reorder is a permutation that puts the dragged card at the target's
      former index and leaves the other cards in their order; with either id
      missing it changes nothing. */
  lemma ReorderedSpec(cards: seq<Json>, draggedId: string, targetId: string)
    ensures var r := Reordered(cards, draggedId, targetId);
      var from, to := FindIndex(cards, draggedId), FindIndex(cards, targetId);
      && multiset(r) == multiset(cards)
      && (from == -1 || to == -1 ==> r == cards)
      && (from >= 0 && to >= 0 ==>
            && |r| == |cards|
            && r[to] == cards[from]
            && RemoveAt(r, to) == RemoveAt(cards, from))
  {
    var from, to := FindIndex(cards, draggedId), FindIndex(cards, targetId);
    if from >= 0 && to >= 0 {
      var rest := RemoveAt(cards, from);
      var r := InsertAt(rest, to, cards[from]);
      RemoveInsert(rest, to, cards[from]);
      MultisetRemoveAt(cards, from);
      MultisetRemoveAt(r, to);
      assert r[to] == cards[from];
    }
  }

  // ----- deleteCard -----

  /** `cards.filter((c) => c.id !== id)`. */
  function Deleted(cards: seq<Json>, id: string): seq<Json> {
    if cards == [] then []
    else (if HasId(cards[0], id) then [] else [cards[0]]) + Deleted(cards[1..], id)
  }

  /** Exactly the cards with the id are gone: every other card keeps its
      number of copies, and no card with the id is left. */
  lemma {:induction false} DeletedCounts(cards: seq<Json>, id: string, c: Json)
    ensures multiset(Deleted(cards, id))[c] == if HasId(c, id) then 0 else multiset(cards)[c]
  {
    if cards != [] {
      DeletedCounts(cards[1..], id, c);
      assert cards == [cards[0]] + cards[1..];
    }
  }

  /** The surviving cards keep their order. */
  lemma {:induction false} DeletedAppend(a: seq<Json>, b: seq<Json>, id: string)
    ensures Deleted(a + b, id) == Deleted(a, id) + Deleted(b, id)
  {
    if a == [] {
      assert a + b == b;
    } else {
      assert (a + b)[0] == a[0];
      assert (a + b)[1..] == a[1..] + b;
      DeletedAppend(a[1..], b, id);
    }
  }

  /** Deleting an id no card has changes nothing. */
  lemma {:induction false} DeletedAbsent(cards: seq<Json>, id: string)
    requires FindIndex(cards, id) == -1
    ensures Deleted(cards, id) == cards
  {
    if cards != [] {
      assert !HasId(cards[0], id);
      assert FindIndex(cards[1..], id) == -1;
      DeletedAbsent(cards[1..], id);
    }
  }
}
