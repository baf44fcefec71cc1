/** The chat-translation slice of the web store as values (web/src/store/index.js). */
module ChatStoreModel {
  import opened Prelude

  // A message id after String(id), the key of every record in the slice.
  type Id(==, !new, 0)
  type Lang = string

  // A payload's translation record; None stands for a value that is not a string.
  type Payload = map<Lang, Option<string>>

  datatype Store = Store(
    messages: seq<Id>,
    translations: map<Id, map<Lang, string>>,
    pending: set<Id>,
    failed: set<Id>)

  function Strings(p: Payload): map<Lang, string> {
    map l | l in p && p[l].Some? :: p[l].value
  }

  function MergeOne(current: map<Id, map<Lang, string>>, id: Id, p: Payload): map<Id, map<Lang, string>> {
    var texts := Strings(p);
    if texts == map[] then current
    else current[id := (if id in current then current[id] else map[]) + texts]
  }

  function MergeAll(current: map<Id, map<Lang, string>>, entries: seq<(Id, Payload)>): map<Id, map<Lang, string>>
    decreases |entries|
  {
    if entries == [] then current
    else MergeAll(MergeOne(current, entries[0].0, entries[0].1), entries[1..])
  }

  /** setChatHistory and appendChatMessage: a new message list, merged translations, pruned records. */
  function Replace(s: Store, messages: seq<Id>, entries: seq<(Id, Payload)>): Store {
    var merged := MergeAll(s.translations, entries);
    Store(messages,
          map id | id in merged && id in messages :: merged[id],
          set id | id in s.pending && id in messages,
          set id | id in s.failed && id in messages)
  }

  predicate HasText(s: Store, id: Id, lang: Lang) {
    id in s.translations && lang in s.translations[id]
  }

  /** Merging never takes a language away from an id. */
  lemma {:induction false} MergeKeeps(current: map<Id, map<Lang, string>>, entries: seq<(Id, Payload)>, id: Id, lang: Lang)
    requires id in current && lang in current[id]
    ensures var m := MergeAll(current, entries); id in m && lang in m[id]
    decreases |entries|
  {
    if entries != [] {
      MergeKeeps(MergeOne(current, entries[0].0, entries[0].1), entries[1..], id, lang);
    }
  }

  /** The entry brings a string for the id in the language. */
  predicate Brings(entry: (Id, Payload), id: Id, lang: Lang) {
    entry.0 == id && lang in entry.1 && entry.1[lang].Some?
  }

  /** After a merge an id has a text in a language exactly when it had one or an entry brought a string for it. */
  lemma {:induction false} MergeAdds(current: map<Id, map<Lang, string>>, entries: seq<(Id, Payload)>, id: Id, lang: Lang)
    ensures var m := MergeAll(current, entries);
      (id in m && lang in m[id]) <==>
      (id in current && lang in current[id]) ||
      (exists k :: 0 <= k < |entries| && Brings(entries[k], id, lang))
    decreases |entries|
  {
    if entries != [] {
      var next := MergeOne(current, entries[0].0, entries[0].1);
      var rest := entries[1..];
      MergeAdds(next, rest, id, lang);
      assert (id in next && lang in next[id]) <==> ((id in current && lang in current[id]) ||
        (entries[0].0 == id && lang in entries[0].1 && entries[0].1[lang].Some?));
      assert forall k :: 0 <= k < |rest| ==> rest[k] == entries[k + 1];
      if k :| 0 <= k < |entries| && Brings(entries[k], id, lang) {
        assert k == 0 || rest[k - 1] == entries[k];
      }
    }
  }

  lemma MergeOneTells(current: map<Id, map<Lang, string>>, entry: (Id, Payload), id: Id, lang: Lang)
    ensures var m := MergeOne(current, entry.0, entry.1);
      if Brings(entry, id, lang) then id in m && lang in m[id] && m[id][lang] == entry.1[lang].value
      else (id in m && lang in m[id] <==> id in current && lang in current[id]) &&
           (id in current && lang in current[id] ==> m[id][lang] == current[id][lang])
  {
  }

  /** What no entry brings stays as it was. */
  lemma {:induction false} MergeLeaves(current: map<Id, map<Lang, string>>, entries: seq<(Id, Payload)>, id: Id, lang: Lang)
    requires forall k :: 0 <= k < |entries| ==> !Brings(entries[k], id, lang)
    ensures var m := MergeAll(current, entries);
      && (id in m && lang in m[id] <==> id in current && lang in current[id])
      && (id in current && lang in current[id] ==> m[id][lang] == current[id][lang])
    decreases |entries|
  {
    hide MergeOne, Brings;
    if entries != [] {
      MergeOneTells(current, entries[0], id, lang);
      assert forall k :: 0 <= k < |entries[1..]| ==> entries[1..][k] == entries[k + 1];
      MergeLeaves(MergeOne(current, entries[0].0, entries[0].1), entries[1..], id, lang);
    }
  }

  /** The last string that is brought for an id and a language is the one kept. */
  lemma {:induction false} LastTextStays(current: map<Id, map<Lang, string>>, entries: seq<(Id, Payload)>, id: Id, lang: Lang, k: nat)
    requires k < |entries| && Brings(entries[k], id, lang) && forall j :: k < j < |entries| ==> !Brings(entries[j], id, lang)
    ensures var m := MergeAll(current, entries); id in m && lang in m[id] && m[id][lang] == entries[k].1[lang].value
    decreases |entries|
  {
    hide MergeOne;
    var next := MergeOne(current, entries[0].0, entries[0].1);
    assert forall j :: 0 <= j < |entries[1..]| ==> entries[1..][j] == entries[j + 1];
    if k > 0 {
      LastTextStays(next, entries[1..], id, lang, k - 1);
    } else {
      MergeOneTells(current, entries[0], id, lang);
      MergeLeaves(next, entries[1..], id, lang);
    }
  }
}
