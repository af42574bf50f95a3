/**
 * The shortcut registry (ShortcutManager.java): an ordered list of rules
 * that is appended to, updated in place by identifier, filtered by
 * identifier, and scanned in order for the first rule whose trigger ends
 * the input text.
 */
module Manager {
  import opened Wrappers
  import opened Entries

  /** String.endsWith: `suffix` is the last |suffix| characters of `s` (the empty string ends every string). */
  predicate EndsWith(s: string, suffix: string)
  {
    |suffix| <= |s| && s[|s| - |suffix|..] == suffix
  }

  /** The trigger of a rule: keyword first, then command, with no separator. */
  function Trigger(e: Entry): string
  {
    e.keyword + e.command
  }

  /** A rule fires on a text when the text ends with the rule's trigger. */
  predicate Matches(e: Entry, text: string)
  {
    EndsWith(text, Trigger(e))
  }

  /** The index of the first rule, in list order, that fires on `text`. */
  function FirstMatch(s: seq<Entry>, text: string): (r: Option<nat>)
    ensures r.Some? ==> r.value < |s| && Matches(s[r.value], text)
    ensures r.Some? ==> forall j :: 0 <= j < r.value ==> !Matches(s[j], text)
    ensures r.None? <==> forall j :: 0 <= j < |s| ==> !Matches(s[j], text)
  {
    if s == [] then None
    else if Matches(s[0], text) then Some(0)
    else match FirstMatch(s[1..], text)
      case None => None
      case Some(k) => Some(k + 1)
  }

  /** What findExpansion answers: nothing for a null text or when no rule fires, else the first firing rule's expansion. */
  function Expansion(s: seq<Entry>, text: Option<string>): (r: Option<string>)
    ensures r.None? <==> text.None? || forall j :: 0 <= j < |s| ==> !Matches(s[j], text.value)
    ensures r.Some? ==> exists i :: 0 <= i < |s| && Matches(s[i], text.value)
                                    && r.value == s[i].expansionText
                                    && forall j :: 0 <= j < i ==> !Matches(s[j], text.value)
  {
    match text
    case None => None
    case Some(t) =>
      match FirstMatch(s, t)
      case None => None
      case Some(i) => Some(s[i].expansionText)
  }

  /** The index of the first rule carrying identifier `id`. */
  function FirstWithId(s: seq<Entry>, id: Uuid): (r: Option<nat>)
    ensures r.Some? ==> r.value < |s| && s[r.value].id == id
    ensures r.Some? ==> forall j :: 0 <= j < r.value ==> s[j].id != id
    ensures r.None? <==> forall j :: 0 <= j < |s| ==> s[j].id != id
  {
    if s == [] then None
    else if s[0].id == id then Some(0)
    else match FirstWithId(s[1..], id)
      case None => None
      case Some(k) => Some(k + 1)
  }

  /** The rules whose identifier is not `id`, in their original order (what removeIf leaves). */
  function Without(s: seq<Entry>, id: Uuid): (r: seq<Entry>)
    ensures forall e :: e in r <==> e in s && e.id != id
    ensures |r| <= |s|
    ensures r == s <==> forall j :: 0 <= j < |s| ==> s[j].id != id
  {
    if s == [] then []
    else if s[0].id == id then Without(s[1..], id)
    else [s[0]] + Without(s[1..], id)
  }

  /** Filtering commutes with concatenation: the survivors keep their relative order. */
  lemma {:induction false} WithoutAppend(a: seq<Entry>, b: seq<Entry>, id: Uuid)
    ensures Without(a + b, id) == Without(a, id) + Without(b, id)
  {
    if a == [] {
      assert a + b == b;
    } else {
      assert (a + b)[0] == a[0];
      assert (a + b)[1..] == a[1..] + b;
      WithoutAppend(a[1..], b, id);
    }
  }

  /** A second delete of the same identifier removes nothing. */
  lemma WithoutIdempotent(s: seq<Entry>, id: Uuid)
    ensures Without(Without(s, id), id) == Without(s, id)
    ensures forall j :: 0 <= j < |Without(s, id)| ==> Without(s, id)[j].id != id
  {
  }

  /** Appending a rule never changes which earlier rule fires; the new rule fires only when none before it does. */
  lemma {:induction false} AppendKeepsFirstMatch(s: seq<Entry>, e: Entry, text: string)
    ensures FirstMatch(s + [e], text) ==
              if FirstMatch(s, text).Some? then FirstMatch(s, text)
              else if Matches(e, text) then Some(|s|)
              else None
  {
    if s != [] {
      assert (s + [e])[0] == s[0];
      assert (s + [e])[1..] == s[1..] + [e];
      AppendKeepsFirstMatch(s[1..], e, text);
    }
  }

  /** Replacing the first rule with an identifier by a rule with that identifier keeps it the first. */
  lemma ReplaceKeepsFirstWithId(s: seq<Entry>, k: nat, e: Entry)
    requires FirstWithId(s, e.id) == Some(k)
    ensures FirstWithId(s[k := e], e.id) == Some(k)
  {
    var t := s[k := e];
    assert t[k].id == e.id;
    assert forall j :: 0 <= j < k ==> t[j] == s[j];
  }

  /** A rule appended with an identifier no earlier rule carries is the one a later update by that identifier replaces. */
  lemma AppendFreshIdIsFirst(s: seq<Entry>, e: Entry)
    requires forall j :: 0 <= j < |s| ==> s[j].id != e.id
    ensures FirstWithId(s + [e], e.id) == Some(|s|)
  {
    assert (s + [e])[|s|] == e;
    assert forall j :: 0 <= j < |s| ==> (s + [e])[j] == s[j];
  }

  /** A rule fires on a text exactly when the text is some prefix followed by the rule's trigger. */
  lemma MatchesIffSplit(e: Entry, text: string)
    ensures Matches(e, text) <==> exists p :: text == p + Trigger(e)
  {
    if Matches(e, text) {
      var p := text[..|text| - |Trigger(e)|];
      assert text == p + Trigger(e);
    }
    if exists p :: text == p + Trigger(e) {
      var p :| text == p + Trigger(e);
      assert text[|p|..] == Trigger(e);
    }
  }

  /** A rule whose trigger occurs inside the text but not at its end does not fire. */
  lemma SuffixNotSubstring()
    ensures !Matches(Entry(Uuid(0, 0), "!sc", "hello", "Hello there!"), "hello!sc!")
    ensures Matches(Entry(Uuid(0, 0), "!sc", "hello", "Hello there!"), "say hello!sc")
  {
    assert "hello!sc!"[9 - 8..] == "ello!sc!";
    assert "ello!sc!"[0] != "hello!sc"[0];
    assert "say hello!sc"[12 - 8..] == "hello!sc";
  }

  /**
   * Order and suffix matching together: rule A (keyword "hi", command "!a")
   * stands before rule B (keyword "hi", command "!ab"); "hi!ab" does not end
   * with "hi!a", so B fires.
   */
  lemma TriggerPriorityExample(a: Uuid, b: Uuid)
    ensures Expansion([Entry(a, "!a", "hi", "Alpha"), Entry(b, "!ab", "hi", "AlphaBeta")], Some("hi!ab"))
            == Some("AlphaBeta")
    ensures Expansion([Entry(a, "!a", "hi", "Alpha"), Entry(b, "!ab", "hi", "AlphaBeta")], Some("hi!a"))
            == Some("Alpha")
  {
    var s := [Entry(a, "!a", "hi", "Alpha"), Entry(b, "!ab", "hi", "AlphaBeta")];
    assert Trigger(s[0]) == "hi!a";
    assert Trigger(s[1]) == "hi!ab";
    assert "hi!ab"[5 - 4..] == "i!ab";
    assert !Matches(s[0], "hi!ab");
    assert Matches(s[1], "hi!ab");
    assert "hi!a"[4 - 4..] == "hi!a";
    assert Matches(s[0], "hi!a");
  }

  class ShortcutManager {
    var entries: seq<Entry>

    constructor ()
      ensures entries == []
    {
      entries := [];
    }

    /** The rules in list order. */
    method GetEntries() returns (r: seq<Entry>)
      ensures r == entries
    {
      r := entries;
    }

    /** Appends the rule; no duplicate identifier or trigger is rejected. */
    method AddShortcut(entry: ShortcutEntry)
      modifies this
      ensures entries == old(entries) + [entry.Value()]
    {
      entries := entries + [entry.Value()];
    }

    /** Replaces the first rule with the entry's identifier, keeping its position. */
    method UpdateShortcut(entry: ShortcutEntry) returns (updated: bool)
      modifies this
      ensures updated <==> FirstWithId(old(entries), entry.id).Some?
      ensures updated ==> entries == old(entries)[FirstWithId(old(entries), entry.id).value := entry.Value()]
      ensures updated ==> FirstWithId(entries, entry.id) == FirstWithId(old(entries), entry.id)
      ensures !updated ==> entries == old(entries)
    {
      var i := 0;
      while i < |entries|
        invariant 0 <= i <= |entries|
        invariant entries == old(entries)
        invariant forall j :: 0 <= j < i ==> entries[j].id != entry.id
      {
        if entries[i].id == entry.id {
          ReplaceKeepsFirstWithId(entries, i, entry.Value());
          entries := entries[i := entry.Value()];
          return true;
        }
        i := i + 1;
      }
      return false;
    }

    /** Removes every rule with identifier `id`; reports whether any was removed. */
    method DeleteShortcut(id: Uuid) returns (removed: bool)
      modifies this
      ensures entries == Without(old(entries), id)
      ensures removed <==> exists j :: 0 <= j < |old(entries)| && old(entries)[j].id == id
    {
      var kept := Without(entries, id);
      removed := kept != entries;
      entries := kept;
    }

    /** Scans the rules in order and answers the expansion of the first whose trigger ends the text. */
    method FindExpansion(textToMatch: Option<string>) returns (r: Option<string>)
      ensures r == Expansion(entries, textToMatch)
    {
      if textToMatch.None? {
        return None;
      }
      var text := textToMatch.value;
      var i := 0;
      while i < |entries|
        invariant 0 <= i <= |entries|
        invariant forall j :: 0 <= j < i ==> !Matches(entries[j], text)
      {
        var trigger := entries[i].keyword + entries[i].command;
        if EndsWith(text, trigger) {
          return Some(entries[i].expansionText);
        }
        i := i + 1;
      }
      return None;
    }
  }
}
