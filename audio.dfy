/** The audio cleanup run after a lookup: every `.mp3` file of the audio
    directory that no saved card refers to, and that is not the file just
    fetched, is deleted. The directory is modelled as the set of its file
    names (`None` when it does not exist); deleting a file removes its name. */
module Audio {
  import opened Text
  import opened Values
  import opened Db
  import Lookup

  /** The file name a card keeps: the last `'/'`-segment of a truthy
      `audio_url`. */
  function FileOf(card: Card): Option<string> {
    Lookup.AudioFileName(card.audioUrl.Get(None))
  }

  /** The files kept for the cards of one list. */
  function ListFiles(cards: map<CardKey, Card>, listId: int): set<string> {
    set k | k in cards && k.listId == listId && FileOf(cards[k]).Some? :: FileOf(cards[k]).value
  }

  /** The files kept for the cards of all lists; cards whose list is gone
      are not read and keep nothing. */
  function SavedFiles(lists: map<int, string>, cards: map<CardKey, Card>): (r: set<string>)
    ensures forall f :: f in r ==> '/' !in f
    ensures lists == map[] ==> r == {}
  {
    set k | k in cards && k.listId in lists && FileOf(cards[k]).Some? :: FileOf(cards[k]).value
  }

  /** The keep-set: the saved files and the current file, when one is given. */
  function KeepSet(lists: map<int, string>, cards: map<CardKey, Card>, current: Option<string>): (r: set<string>)
    ensures forall f :: f in r <==> f in SavedFiles(lists, cards) || (Truthy(current) && f == current.value)
  {
    SavedFiles(lists, cards) + (if Truthy(current) then {current.value} else {})
  }

  /** A file is deleted exactly when it is an `.mp3` outside the keep-set. */
  predicate Doomed(filename: string, keep: set<string>) {
    EndsWith(filename, ".mp3") && filename !in keep
  }

  function DoomedFiles(files: set<string>, keep: set<string>): set<string> {
    set f | f in files && Doomed(f, keep)
  }

  /** Collecting over the rows `get_cards_for_list` returns gives the files
      of that list, whatever the order of the rows. */
  lemma RowsGiveListFiles(cards: map<CardKey, Card>, listId: int, rows: seq<Card>)
    requires forall i :: 0 <= i < |rows| ==> exists w :: w in CardsIn(cards, listId) && CardsIn(cards, listId)[w] == rows[i]
    requires forall w :: w in CardsIn(cards, listId) ==> CardsIn(cards, listId)[w] in rows
    ensures forall f :: (exists i :: 0 <= i < |rows| && FileOf(rows[i]) == Some(f)) <==> f in ListFiles(cards, listId)
  {
    forall f | exists i :: 0 <= i < |rows| && FileOf(rows[i]) == Some(f)
      ensures f in ListFiles(cards, listId)
    {
      var i :| 0 <= i < |rows| && FileOf(rows[i]) == Some(f);
      var w :| w in CardsIn(cards, listId) && CardsIn(cards, listId)[w] == rows[i];
      var k := CardKey(w, listId);
      assert k in cards && cards[k] == rows[i];
    }
    forall f | f in ListFiles(cards, listId)
      ensures exists i :: 0 <= i < |rows| && FileOf(rows[i]) == Some(f)
    {
      var k :| k in cards && k.listId == listId && FileOf(cards[k]) == Some(f);
      assert k.cleanWord in CardsIn(cards, listId);
      var i :| 0 <= i < |rows| && rows[i] == cards[k];
    }
  }

  /** Collecting over all list rows gives the saved files of the store. */
  lemma AllRowsGiveSavedFiles(lists: map<int, string>, cards: map<CardKey, Card>, rows: seq<ListRow>)
    requires forall i :: 0 <= i < |rows| ==> rows[i].id in lists
    requires forall id :: id in lists ==> exists i :: 0 <= i < |rows| && rows[i].id == id
    ensures forall f :: (exists i :: 0 <= i < |rows| && f in ListFiles(cards, rows[i].id)) <==> f in SavedFiles(lists, cards)
  {
    forall f | exists i :: 0 <= i < |rows| && f in ListFiles(cards, rows[i].id)
      ensures f in SavedFiles(lists, cards)
    {
      var i :| 0 <= i < |rows| && f in ListFiles(cards, rows[i].id);
      var k :| k in cards && k.listId == rows[i].id && FileOf(cards[k]) == Some(f);
    }
    forall f | f in SavedFiles(lists, cards)
      ensures exists i :: 0 <= i < |rows| && f in ListFiles(cards, rows[i].id)
    {
      var k :| k in cards && k.listId in lists && FileOf(cards[k]) == Some(f);
      var i :| 0 <= i < |rows| && rows[i].id == k.listId;
      assert f in ListFiles(cards, rows[i].id);
    }
  }

  /** The inner loop of the saved-files part: adds the file of every card
      of one list. */
  method AddCardFiles(savedFiles: set<string>, cards: seq<Card>) returns (result: set<string>)
    ensures forall f :: f in result <==> f in savedFiles || exists c :: 0 <= c < |cards| && FileOf(cards[c]) == Some(f)
  {
    result := savedFiles;
    for j := 0 to |cards|
      invariant forall f :: f in result <==> f in savedFiles || exists c :: 0 <= c < j && FileOf(cards[c]) == Some(f)
    {
      var audioUrl := cards[j].audioUrl.Get(None);
      if Truthy(audioUrl) {
        var filename := LastSegment(audioUrl.value);
        result := result + {filename};
      }
    }
  }

  lemma ListStep(cards: map<CardKey, Card>, lists: seq<ListRow>, i: nat, before: set<string>, after: set<string>)
    requires i < |lists|
    requires forall f :: f in before <==> exists l :: 0 <= l < i && f in ListFiles(cards, lists[l].id)
    requires forall f :: f in after <==> f in before || f in ListFiles(cards, lists[i].id)
    ensures forall f :: f in after <==> exists l :: 0 <= l < i + 1 && f in ListFiles(cards, lists[l].id)
  {
  }

  /** The saved-files part of `cleanup_unused_audio`: the file of every card
      of every list, gathered list by list and card by card. */
  method CollectSavedFiles(store: VocabularyStore) returns (savedFiles: set<string>)
    requires store.Valid() && store.hasLists
    ensures savedFiles == SavedFiles(store.lists, store.cards)
  {
    var lists := store.GetLists();
    savedFiles := {};
    for i := 0 to |lists|
      invariant forall f :: f in savedFiles <==> exists l :: 0 <= l < i && f in ListFiles(store.cards, lists[l].id)
    {
      var cards;
      ghost var words;
      cards, words := store.GetCardsForList(lists[i].id);
      RowsGiveListFiles(store.cards, lists[i].id, cards);
      ghost var before := savedFiles;
      savedFiles := AddCardFiles(savedFiles, cards);
      ListStep(store.cards, lists, i, before, savedFiles);
    }
    AllRowsGiveSavedFiles(store.lists, store.cards, lists);
  }

  /** The deletion loop of `cleanup_unused_audio`: every `.mp3` name outside
      the keep-set goes, and the count says how many went. */
  method DeleteUnkept(files: set<string>, keep: set<string>) returns (left: set<string>, deletedCount: nat)
    ensures left == files - DoomedFiles(files, keep)
    ensures deletedCount == |DoomedFiles(files, keep)|
  {
    left := files;
    deletedCount := 0;
    var todo := files;
    ghost var deleted: set<string> := {};
    while todo != {}
      invariant forall f :: f in todo ==> f in files
      invariant forall f :: f in deleted <==> f in files && f !in todo && Doomed(f, keep)
      invariant forall f :: f in left <==> f in files && f !in deleted
      invariant deletedCount == |deleted|
    {
      ghost var some := Element(todo);
      var filename :| filename in todo;
      if EndsWith(filename, ".mp3") {
        if filename !in keep {
          left := left - {filename};
          deletedCount := deletedCount + 1;
          deleted := deleted + {filename};
        }
      }
      todo := todo - {filename};
    }
    assert deleted == DoomedFiles(files, keep);
    assert left == files - deleted;
  }

  /** `cleanup_unused_audio`: the directory afterwards and the number of
      files deleted. A missing directory is left alone; a store without its
      tables makes `get_lists` raise, which is caught, so nothing is deleted. */
  method CleanupUnusedAudio(store: VocabularyStore, audioDir: Option<set<string>>, currentAudioFile: Option<string>)
    returns (remaining: Option<set<string>>, deletedCount: nat)
    requires store.Valid()
    ensures audioDir.None? ==> remaining.None? && deletedCount == 0
    ensures audioDir.Some? && !store.hasLists ==> remaining == audioDir && deletedCount == 0
    ensures audioDir.Some? && store.hasLists ==>
      var doomed := DoomedFiles(audioDir.value, KeepSet(store.lists, store.cards, currentAudioFile));
      remaining == Some(audioDir.value - doomed) && deletedCount == |doomed|
  {
    remaining := audioDir;
    deletedCount := 0;
    if audioDir.None? {
      return;
    }
    if !store.hasLists {
      return;
    }
    var savedFiles := CollectSavedFiles(store);
    if Truthy(currentAudioFile) {
      savedFiles := savedFiles + {currentAudioFile.value};
    }
    assert savedFiles == KeepSet(store.lists, store.cards, currentAudioFile);
    var left;
    left, deletedCount := DeleteUnkept(audioDir.value, savedFiles);
    remaining := Some(left);
  }
}
