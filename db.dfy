/** The vocabulary store: a SQLite file with a `lists` table (an
    autoincrement id and a unique name) and a `cards` table keyed by
    `(clean_word, list_id)` holding each card's JSON. Only the table-level
    effects are modelled: rows as map entries, the uniqueness and primary-key
    constraints, `INSERT OR REPLACE` and the cascade. The JSON encoding is
    taken to round-trip, so a stored card is the card value itself. Each
    function of the store opens its own connection; here they are methods of
    one object whose fields are the tables. */
module Db {
  import opened Values

  /** The primary key of a card row. */
  datatype CardKey = CardKey(cleanWord: string, listId: int)

  /** A row of `get_lists()`. */
  datatype ListRow = ListRow(id: int, name: string)

  /** No two lists share a name (the `UNIQUE` constraint on `lists.name`). */
  predicate NamesUnique(lists: map<int, string>) {
    forall a, b :: a in lists && b in lists && lists[a] == lists[b] ==> a == b
  }

  /** The rows of the pre-multi-list `cards` table, keyed by `clean_word`,
      copied into the list `listId`. */
  function Migrated(legacy: map<string, Card>, listId: int): (r: map<CardKey, Card>)
    ensures forall k :: k in r <==> k.listId == listId && k.cleanWord in legacy
    ensures forall w :: w in legacy ==> r[CardKey(w, listId)] == legacy[w]
  {
    map w | w in legacy :: CardKey(w, listId) := legacy[w]
  }

  /** The cards that survive deleting the list `listId` with the cascade. */
  function Cascade(cards: map<CardKey, Card>, listId: int): (r: map<CardKey, Card>)
    ensures forall k :: k in r <==> k in cards && k.listId != listId
    ensures forall k :: k in r ==> r[k] == cards[k]
  {
    map k | k in cards && k.listId != listId :: cards[k]
  }

  /** The cards of one list, by word. */
  function CardsIn(cards: map<CardKey, Card>, listId: int): (r: map<string, Card>)
    ensures forall w :: w in r <==> CardKey(w, listId) in cards
    ensures forall w :: w in r ==> r[w] == cards[CardKey(w, listId)]
  {
    map k | k in cards && k.listId == listId :: k.cleanWord := cards[k]
  }

  /** A member of a non-empty set, as a witness for picking one. */
  lemma Element<T>(s: set<T>) returns (x: T)
    requires s != {}
    ensures x in s
  {
    x :| x in s;
  }

  /** `rows` lists the lists whose ids are in `ids`, each once, with its name. */
  ghost predicate RowsOf(rows: seq<ListRow>, ids: set<int>, lists: map<int, string>) {
    && |rows| == |ids|
    && (forall i :: 0 <= i < |rows| ==> rows[i].id in ids && rows[i].id in lists && rows[i].name == lists[rows[i].id])
    && (forall id :: id in ids ==> exists i :: 0 <= i < |rows| && rows[i].id == id)
    && (forall i, j :: 0 <= i < j < |rows| ==> rows[i].id != rows[j].id)
  }

  lemma RowsExtend(rows: seq<ListRow>, ids: set<int>, lists: map<int, string>, id: int)
    requires RowsOf(rows, ids, lists) && id in lists && id !in ids
    ensures RowsOf(rows + [ListRow(id, lists[id])], ids + {id}, lists)
  {
    var after := rows + [ListRow(id, lists[id])];
    forall x | x in ids + {id}
      ensures exists i :: 0 <= i < |after| && after[i].id == x
    {
      if x == id {
        assert after[|rows|].id == x;
      } else {
        var i :| 0 <= i < |rows| && rows[i].id == x;
        assert after[i].id == x;
      }
    }
    forall i, j | 0 <= i < j < |after|
      ensures after[i].id != after[j].id
    {
      assert after[i] == rows[i];
      if j < |rows| {
        assert after[j] == rows[j];
      }
    }
  }

  /** `result` holds the data of the words in `words`, one entry per word. */
  ghost predicate CardsOf(result: seq<Card>, words: set<string>, rows: map<string, Card>) {
    && |result| == |words|
    && (forall i :: 0 <= i < |result| ==> exists w :: w in words && w in rows && rows[w] == result[i])
    && (forall w :: w in words ==> w in rows && rows[w] in result)
  }

  lemma CardsExtend(result: seq<Card>, words: set<string>, rows: map<string, Card>, w: string)
    requires CardsOf(result, words, rows) && w in rows && w !in words
    ensures CardsOf(result + [rows[w]], words + {w}, rows)
  {
    var after := result + [rows[w]];
    forall i | 0 <= i < |after|
      ensures exists v :: v in words + {w} && v in rows && rows[v] == after[i]
    {
      if i < |result| {
        var v :| v in words && v in rows && rows[v] == result[i];
        assert after[i] == result[i];
      } else {
        assert after[i] == rows[w];
      }
    }
  }

  /** `words` names, once each, the word of every card in `result`, and
      the words are exactly `done`. */
  ghost predicate WordsOf(result: seq<Card>, words: seq<string>, done: set<string>, rows: map<string, Card>) {
    && |words| == |result|
    && (forall i :: 0 <= i < |words| ==> words[i] in done && words[i] in rows && result[i] == rows[words[i]])
    && (forall x :: x in done ==> x in words)
    && (forall i, j :: 0 <= i < j < |words| ==> words[i] != words[j])
  }

  lemma WordsExtend(result: seq<Card>, words: seq<string>, done: set<string>, rows: map<string, Card>, w: string)
    requires WordsOf(result, words, done, rows) && w in rows && w !in done
    ensures WordsOf(result + [rows[w]], words + [w], done + {w}, rows)
  {
    var words', result' := words + [w], result + [rows[w]];
    forall i | 0 <= i < |words'|
      ensures words'[i] in done + {w} && words'[i] in rows && result'[i] == rows[words'[i]]
    {
      if i < |words| {
        assert words'[i] == words[i] && result'[i] == result[i];
      }
    }
  }

  class VocabularyStore {
    /** Whether the `lists` table exists, i.e. the multi-list schema is in place. */
    var hasLists: bool
    /** The old single-list `cards` table of a file that predates the
        multi-list schema, when there is one. */
    var legacyCards: Option<map<string, Card>>
    var lists: map<int, string>
    var cards: map<CardKey, Card>
    /** The largest id ever handed out by `AUTOINCREMENT`. */
    var lastId: nat

    ghost predicate Valid()
      reads this
    {
      && (!hasLists ==> lists == map[] && cards == map[] && lastId == 0)
      && (hasLists ==> legacyCards.None?)
      && (forall id :: id in lists ==> 1 <= id <= lastId)
      && NamesUnique(lists)
    }

    /** A database file as found before `init_db` first runs on it: without
        the `lists` table, and with or without an old `cards` table. */
    constructor (legacy: Option<map<string, Card>>)
      ensures Valid() && !hasLists && legacyCards == legacy
    {
      hasLists := false;
      legacyCards := legacy;
      lists := map[];
      cards := map[];
      lastId := 0;
    }

    /** `init_db`: on a file without the `lists` table, create it with the
        single list `General` (id 1) and a cards table that holds the old
        cards, moved into `General`, or nothing; otherwise change nothing. */
    method InitDb()
      requires Valid()
      modifies this
      ensures Valid() && hasLists
      ensures old(hasLists) ==> lists == old(lists) && cards == old(cards) && lastId == old(lastId)
                                && legacyCards == old(legacyCards)
      ensures !old(hasLists) ==> lists == map[1 := "General"] && lastId == 1 && legacyCards.None?
      ensures !old(hasLists) && old(legacyCards).None? ==> cards == map[]
      ensures !old(hasLists) && old(legacyCards).Some? ==> cards == Migrated(old(legacyCards).value, 1)
    {
      if !hasLists {
        hasLists := true;
        lastId := lastId + 1;
        var generalListId := lastId;
        lists := lists[generalListId := "General"];
        if legacyCards.Some? {
          cards := Migrated(legacyCards.value, generalListId);
          legacyCards := None;
        } else {
          cards := map[];
        }
      }
    }

    /** `get_lists`: every list once, as `(id, name)` rows, in no particular
        order. */
    method GetLists() returns (rows: seq<ListRow>)
      requires Valid() && hasLists
      ensures |rows| == |lists|
      ensures forall i :: 0 <= i < |rows| ==> rows[i].id in lists && rows[i].name == lists[rows[i].id]
      ensures forall id :: id in lists ==> exists i :: 0 <= i < |rows| && rows[i].id == id
      ensures forall i, j :: 0 <= i < j < |rows| ==> rows[i].id != rows[j].id
    {
      rows := [];
      var todo := lists.Keys;
      ghost var done: set<int> := {};
      while todo != {}
        invariant todo !! done && forall x :: x in lists <==> x in todo || x in done
        invariant RowsOf(rows, done, lists)
      {
        ghost var some := Element(todo);
        var id :| id in todo;
        RowsExtend(rows, done, lists, id);
        rows := rows + [ListRow(id, lists[id])];
        todo := todo - {id};
        done := done + {id};
      }
      assert forall x :: x in done <==> x in lists.Keys;
      assert done == lists.Keys;
    }

    /** `create_list`: a new list under a fresh id, or `false` when the name
        is already taken. */
    method CreateList(name: string) returns (ok: bool)
      requires Valid() && hasLists
      modifies this
      ensures Valid() && hasLists && legacyCards == old(legacyCards) && cards == old(cards)
      ensures ok <==> name !in old(lists).Values
      ensures ok ==> lists == old(lists)[old(lastId) + 1 := name] && lastId == old(lastId) + 1
      ensures !ok ==> lists == old(lists) && lastId == old(lastId)
    {
      if name in lists.Values {
        return false;
      }
      lastId := lastId + 1;
      lists := lists[lastId := name];
      ok := true;
    }

    /** `delete_list` with foreign keys on: the list row goes and the cascade
        removes its cards. When no list has that id no row is deleted, so
        nothing cascades either. */
    method DeleteList(listId: int)
      requires Valid() && hasLists
      modifies this
      ensures Valid() && hasLists && legacyCards == old(legacyCards) && lastId == old(lastId)
      ensures lists == old(lists) - {listId}
      ensures listId in old(lists) ==> cards == Cascade(old(cards), listId)
      ensures listId !in old(lists) ==> cards == old(cards)
    {
      if listId in lists {
        lists := lists - {listId};
        cards := Cascade(cards, listId);
      }
    }

    /** `get_cards_for_list`: the data of every card of the list, once per
        word, in no particular order. `words` says which word each row is
        the card of. */
    method GetCardsForList(listId: int) returns (result: seq<Card>, ghost words: seq<string>)
      requires Valid() && hasLists
      ensures |result| == |CardsIn(cards, listId)|
      ensures forall i :: 0 <= i < |result| ==> exists w :: w in CardsIn(cards, listId) && CardsIn(cards, listId)[w] == result[i]
      ensures forall w :: w in CardsIn(cards, listId) ==> CardsIn(cards, listId)[w] in result
      ensures |words| == |result|
      ensures forall i :: 0 <= i < |words| ==> words[i] in CardsIn(cards, listId) && result[i] == CardsIn(cards, listId)[words[i]]
      ensures forall w :: w in CardsIn(cards, listId) ==> w in words
      ensures forall i, j :: 0 <= i < j < |words| ==> words[i] != words[j]
    {
      var rows := CardsIn(cards, listId);
      result := [];
      words := [];
      var todo := rows.Keys;
      ghost var done: set<string> := {};
      while todo != {}
        invariant todo !! done && forall x :: x in rows <==> x in todo || x in done
        invariant CardsOf(result, done, rows)
        invariant WordsOf(result, words, done, rows)
      {
        ghost var some := Element(todo);
        var w :| w in todo;
        CardsExtend(result, done, rows, w);
        WordsExtend(result, words, done, rows, w);
        result := result + [rows[w]];
        words := words + [w];
        todo := todo - {w};
        done := done + {w};
      }
      assert done == rows.Keys;
    }

    /** `add_card`: insert or replace the card under `(clean_word, list_id)`;
        a card without a truthy `clean_word` is not saved. The list id is not
        checked against `lists` (foreign keys are off on this connection). */
    method AddCard(listId: int, card: Card)
      requires Valid() && hasLists
      modifies this
      ensures Valid() && hasLists && legacyCards == old(legacyCards) && lists == old(lists) && lastId == old(lastId)
      ensures Truthy(card.cleanWord) ==> cards == old(cards)[CardKey(card.cleanWord.value, listId) := card]
      ensures !Truthy(card.cleanWord) ==> cards == old(cards)
    {
      var cleanWord := card.cleanWord;
      if Truthy(cleanWord) {
        cards := cards[CardKey(cleanWord.value, listId) := card];
      }
    }

    /** `delete_card`: removes the one row `(clean_word, list_id)`, if any. */
    method DeleteCard(listId: int, cleanWord: string)
      requires Valid() && hasLists
      modifies this
      ensures Valid() && hasLists && legacyCards == old(legacyCards) && lists == old(lists) && lastId == old(lastId)
      ensures cards == old(cards) - {CardKey(cleanWord, listId)}
    {
      cards := cards - {CardKey(cleanWord, listId)};
    }
  }

  /** The same word can be saved in two lists at once: the rows are keyed by
      word and list, and inserting into one list leaves the other list's
      cards as they were. */
  lemma InsertLeavesOtherListsAlone(cards: map<CardKey, Card>, w: string, listId: int, card: Card, other: int)
    requires other != listId
    ensures CardsIn(cards[CardKey(w, listId) := card], other) == CardsIn(cards, other)
    ensures w in CardsIn(cards[CardKey(w, listId) := card], listId)
  {
    var after := CardsIn(cards[CardKey(w, listId) := card], other);
    var before := CardsIn(cards, other);
    assert forall v :: v in after <==> v in before;
  }

  /** After the cascade, the deleted list holds no cards and every other
      list holds the cards it held. */
  lemma CascadeEmptiesOnlyThatList(cards: map<CardKey, Card>, listId: int, other: int)
    requires other != listId
    ensures CardsIn(Cascade(cards, listId), listId) == map[]
    ensures CardsIn(Cascade(cards, listId), other) == CardsIn(cards, other)
  {
    var gone := CardsIn(Cascade(cards, listId), listId);
    assert forall w :: w !in gone;
    var after := CardsIn(Cascade(cards, listId), other);
    var before := CardsIn(cards, other);
    assert forall v :: v in after <==> v in before;
  }

  /** The migration keeps every old card, with its word and data, in the one
      list it is moved into. */
  lemma MigrationKeepsCards(legacy: map<string, Card>, listId: int)
    ensures CardsIn(Migrated(legacy, listId), listId) == legacy
  {
    var moved := CardsIn(Migrated(legacy, listId), listId);
    assert forall w :: w in moved <==> w in legacy;
  }
}
