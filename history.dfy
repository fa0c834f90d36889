/**
 * The browser's session history as far as the page uses it: a list of
 * entries, each with the state object's `page` (absent for the entry the page
 * was loaded with) and the URL fragment, and the index of the current entry.
 * `history.pushState` drops every entry after the current one and appends.
 */
module History {
  import opened Wrappers

  datatype Entry = Entry(page: Option<string>, hash: string)

  datatype Session = Session(entries: seq<Entry>, index: nat) {
    predicate Valid() {
      index < |entries|
    }

    function Current(): Entry
      requires Valid()
    {
      entries[index]
    }
  }

  /** The session for a page loaded at an address whose fragment is `hash`. */
  function Start(hash: string): (s: Session)
    ensures s.Valid() && s.Current() == Entry(None, hash) && |s.entries| == 1
  {
    Session([Entry(None, hash)], 0)
  }

  /** `pageManager.updateUrl`: `history.pushState({ page: id }, '', pathname + '#' + id)`. */
  function Push(s: Session, id: string): (r: Session)
    requires s.Valid()
    ensures r.Valid()
    ensures r.Current() == Entry(Some(id), "#" + id)
    ensures r.index == s.index + 1 && |r.entries| == s.index + 2
    ensures r.entries[..s.index + 1] == s.entries[..s.index + 1]
  {
    Session(s.entries[..s.index + 1] + [Entry(Some(id), "#" + id)], s.index + 1)
  }

  /** The browser's back button; nothing happens on the first entry. */
  function Back(s: Session): (r: Session)
    requires s.Valid()
    ensures r.Valid() && r.entries == s.entries
    ensures r.index == if s.index > 0 then s.index - 1 else s.index
  {
    if s.index > 0 then s.(index := s.index - 1) else s
  }

  /** The browser's forward button; nothing happens on the last entry. */
  function Forward(s: Session): (r: Session)
    requires s.Valid()
    ensures r.Valid() && r.entries == s.entries
    ensures r.index == if s.index + 1 < |s.entries| then s.index + 1 else s.index
  {
    if s.index + 1 < |s.entries| then s.(index := s.index + 1) else s
  }

  /** Going back after a push shows the entry that was current before it. */
  lemma BackAfterPush(s: Session, id: string)
    requires s.Valid()
    ensures Back(Push(s, id)).Valid()
    ensures Back(Push(s, id)).Current() == s.Current()
    ensures Back(Push(s, id)).index == s.index
  {
    var p := Push(s, id);
    assert p.entries[s.index] == p.entries[..s.index + 1][s.index];
  }

  /** Forward undoes Back on the entry just pushed. */
  lemma ForwardAfterBackAfterPush(s: Session, id: string)
    requires s.Valid()
    ensures Forward(Back(Push(s, id))) == Push(s, id)
  {
  }

  /** A push grows the history by one entry exactly when no forward entries existed. */
  lemma PushLength(s: Session, id: string)
    requires s.Valid()
    ensures |Push(s, id).entries| == |s.entries| + 1 <==> s.index + 1 == |s.entries|
  {
  }
}
