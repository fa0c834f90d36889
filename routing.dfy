/**
 * Which page the address selects: `pageManager.loadPageFromUrl` reads the
 * fragment, the `popstate` listener prefers the history entry's state. Both
 * fall back to the default page and then test `pageData[id]`, which is
 * truthy for inherited property names too; the `Registered` variants use the
 * corrected own-key test.
 */
module Routing {
  import opened Wrappers
  import opened Pages

  /** The position of the first `c` in `s`. */
  function FirstIndex(s: string, c: char): (k: nat)
    requires c in s
    ensures k < |s| && s[k] == c && c !in s[..k]
  {
    if s[0] == c then 0
    else
      var k := FirstIndex(s[1..], c) + 1;
      assert s[..k] == [s[0]] + s[1..][..k - 1];
      k
  }

  /** `s.replace(c, '')` with a one-character string pattern: only the FIRST occurrence goes. */
  function RemoveFirst(s: string, c: char): string {
    if s == [] then []
    else if s[0] == c then s[1..]
    else [s[0]] + RemoveFirst(s[1..], c)
  }

  /** Removing leaves a string without `c` alone and otherwise cuts out its first `c` only. */
  lemma {:induction false} RemoveFirstSpec(s: string, c: char)
    ensures c !in s ==> RemoveFirst(s, c) == s
    ensures c in s ==> RemoveFirst(s, c) == s[..FirstIndex(s, c)] + s[FirstIndex(s, c) + 1..]
  {
    if s != [] && s[0] != c {
      RemoveFirstSpec(s[1..], c);
      if c in s {
        var k := FirstIndex(s[1..], c);
        assert s[..k + 1] == [s[0]] + s[1..][..k];
        assert s[k + 2..] == s[1..][k + 1..];
      } else {
        assert s == [s[0]] + s[1..];
      }
    }
  }

  /** `location.hash.replace('#', '')`. */
  function Fragment(hash: string): string {
    RemoveFirst(hash, '#')
  }

  lemma FragmentOfHash(id: string)
    ensures Fragment("#" + id) == id
  {
    assert ("#" + id)[1..] == id;
  }

  /** The id `loadPageFromUrl` looks up: `location.hash.replace('#', '') || 'energia'`. */
  function LoadId(hash: string): string {
    if Fragment(hash) != "" then Fragment(hash) else DefaultPage
  }

  /** The id the `popstate` listener looks up: `e.state?.page || fragment || 'energia'`. */
  function PopStateId(statePage: Option<string>, hash: string): string {
    if statePage.Some? && statePage.value != "" then statePage.value else LoadId(hash)
  }

  /**
   * `loadPageFromUrl` as written: the id `changePage(id, false)` is called
   * with, if the lookup `pageData[id]` is truthy.
   */
  function LoadTarget(hash: string): Option<string> {
    if JsLookupTruthy(LoadId(hash)) then Some(LoadId(hash)) else None
  }

  /** The `popstate` listener as written: the same lookup on its own id. */
  function PopStateTarget(statePage: Option<string>, hash: string): Option<string> {
    if JsLookupTruthy(PopStateId(statePage, hash)) then Some(PopStateId(statePage, hash)) else None
  }

  /** `loadPageFromUrl` with the corrected registry test: only the registry's own keys pass. */
  function RegisteredLoadTarget(hash: string): Option<string> {
    if IsPage(LoadId(hash)) then Some(LoadId(hash)) else None
  }

  /** The `popstate` listener with the corrected registry test. */
  function RegisteredPopStateTarget(statePage: Option<string>, hash: string): Option<string> {
    if IsPage(PopStateId(statePage, hash)) then Some(PopStateId(statePage, hash)) else None
  }

  /**
   * Loading calls `changePage(p, false)` exactly when `pageData[p]` is truthy
   * and `p` is the fragment or, for an empty fragment, the default page; it
   * calls nothing exactly for a non-empty fragment the lookup rejects.
   */
  lemma LoadTargetSpec(hash: string, p: string)
    ensures LoadTarget(hash) == Some(p) <==>
      JsLookupTruthy(p) && (Fragment(hash) == p || (Fragment(hash) == "" && p == DefaultPage))
    ensures LoadTarget(hash) == None <==> Fragment(hash) != "" && !JsLookupTruthy(Fragment(hash))
  {
    assert JsLookupTruthy(DefaultPage) by { DefaultIsPage(); }
  }

  /** The same with the corrected test: a page is selected exactly when it is registered. */
  lemma RegisteredLoadTargetSpec(hash: string, p: string)
    ensures RegisteredLoadTarget(hash) == Some(p) <==>
      IsPage(p) && (Fragment(hash) == p || (Fragment(hash) == "" && p == DefaultPage))
    ensures RegisteredLoadTarget(hash) == None <==> Fragment(hash) != "" && !IsPage(Fragment(hash))
  {
    DefaultIsPage();
  }

  /**
   * What the written test lets through is a registered page or an inherited
   * name; with the corrected test it is always a registered page.
   */
  lemma TargetsAreRegistered(statePage: Option<string>, hash: string)
    ensures LoadTarget(hash).Some? ==>
      LoadTarget(hash).value in PageIds || LoadTarget(hash).value in InheritedNames
    ensures PopStateTarget(statePage, hash).Some? ==>
      PopStateTarget(statePage, hash).value in PageIds ||
      PopStateTarget(statePage, hash).value in InheritedNames
    ensures RegisteredLoadTarget(hash).Some? ==> IsPage(RegisteredLoadTarget(hash).value)
    ensures RegisteredPopStateTarget(statePage, hash).Some? ==>
      IsPage(RegisteredPopStateTarget(statePage, hash).value)
  {
  }

  /**
   * The written and the corrected tests select differently exactly when the
   * looked-up id is an inherited name; the written one then selects that name.
   */
  lemma TargetsDifferOnInheritedNames(statePage: Option<string>, hash: string)
    ensures LoadTarget(hash) != RegisteredLoadTarget(hash) <==> LoadId(hash) in InheritedNames
    ensures PopStateTarget(statePage, hash) != RegisteredPopStateTarget(statePage, hash) <==>
      PopStateId(statePage, hash) in InheritedNames
    ensures LoadId(hash) in InheritedNames ==>
      LoadTarget(hash) == Some(LoadId(hash)) && RegisteredLoadTarget(hash) == None
  {
    IsPageRefinesLookup(LoadId(hash));
    IsPageRefinesLookup(PopStateId(statePage, hash));
  }

  /** The address `#toString` reaches `changePage('toString', false)` as written, and nothing once corrected. */
  lemma LoadInheritedName()
    ensures LoadTarget("#toString") == Some("toString")
    ensures RegisteredLoadTarget("#toString") == None
  {
    FragmentOfHash("toString");
    JsLookupAcceptsNonPage();
  }

  /** A state page, when present and non-empty, wins over the fragment. */
  lemma PopStatePrefersState(page: string, hash: string)
    requires page != ""
    ensures PopStateTarget(Some(page), hash) == if JsLookupTruthy(page) then Some(page) else None
    ensures RegisteredPopStateTarget(Some(page), hash) == if IsPage(page) then Some(page) else None
  {
  }

  /** Without a state page, `popstate` resolves exactly as loading the address does. */
  lemma PopStateWithoutStateIsLoad(statePage: Option<string>, hash: string)
    requires statePage.None? || statePage.value == ""
    ensures PopStateTarget(statePage, hash) == LoadTarget(hash)
    ensures RegisteredPopStateTarget(statePage, hash) == RegisteredLoadTarget(hash)
  {
  }

  /** An entry written by `updateUrl(p)` selects `p` again, by state or by fragment. */
  lemma PushedEntryResolves(p: string, withState: bool)
    requires IsPage(p)
    ensures PopStateTarget(if withState then Some(p) else None, "#" + p) == Some(p)
    ensures LoadTarget("#" + p) == Some(p)
    ensures RegisteredPopStateTarget(if withState then Some(p) else None, "#" + p) == Some(p)
  {
    FragmentOfHash(p);
    IsPageRefinesLookup(p);
    assert p != "" by { PageIdsNonEmpty(p); }
  }

  /** No registered id is empty, so the `||` fallbacks never pass over a page. */
  lemma PageIdsNonEmpty(p: string)
    requires IsPage(p)
    ensures p != ""
  {
    assert "" !in PageData;
  }

  /** Three fragments: a registered page, none, and an unknown one. */
  lemma LoadExamples()
    ensures LoadTarget("#biodiversidade") == Some("biodiversidade")
    ensures LoadTarget("") == Some(DefaultPage)
    ensures LoadTarget("#xyz") == None
  {
    FragmentOfHash("biodiversidade");
    FragmentOfHash("xyz");
    assert "xyz" !in PageData;
    DefaultIsPage();
  }
}
