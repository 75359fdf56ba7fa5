/** The custom package page (src/app/pacotes/page.tsx): a checkbox per
    service toggles its name in an insertion-ordered JavaScript `Set`, and the
    WhatsApp button sends a message listing the chosen names and the notes. */
module Packages {
  import opened Common

  /** The message's opening line, "Olá, gostaria de um orçamento para o seguinte
      pacote personalizado:". It is spelled as four shorter literals because
      HeaderHasNoBreak checks each piece for a line break. */
  const Header: string := "Olá, gostaria " + "de um orçamento " + "para o seguinte " + "pacote personalizado:"
  const NotesLabel: string := "Notas adicionais: "
  const NoNotes: string := "Nenhuma."

  /** A `Set` as the page reads it back: its values in insertion order, once each. */
  predicate NoDup(s: seq<string>)
  {
    forall i, j :: 0 <= i < j < |s| ==> s[i] != s[j]
  }

  /** `Set.prototype.delete`. */
  function Delete(s: seq<string>, x: string): (r: seq<string>)
    ensures x !in r
    ensures forall y :: y != x ==> (y in r <==> y in s)
    ensures NoDup(s) ==> NoDup(r)
    ensures x !in s ==> r == s
  {
    FilterIsSubsequence(s, (y: string) => y != x);
    assert NoDup(s) ==> NoDup(Filter(s, (y: string) => y != x)) by {
      if NoDup(s) { SubsequenceKeepsNoDup(Filter(s, (y: string) => y != x), s); }
    }
    assert x !in s ==> Filter(s, (y: string) => y != x) == s by {
      if x !in s { FilterKeepsAll(s, (y: string) => y != x); }
    }
    Filter(s, (y: string) => y != x)
  }

  lemma {:induction false} SubsequenceKeepsNoDup(a: seq<string>, b: seq<string>)
    requires IsSubsequence(a, b) && NoDup(b)
    ensures NoDup(a)
    decreases |b|
  {
    if a != [] {
      if a[0] == b[0] && IsSubsequence(a[1..], b[1..]) {
        SubsequenceKeepsNoDup(a[1..], b[1..]);
        SubsequenceMembers(a[1..], b[1..]);
        forall j | 1 <= j < |a| ensures a[0] != a[j] {
          assert a[j] == a[1..][j - 1];
          assert a[j] in a[1..];
          var k :| 0 <= k < |b[1..]| && b[1..][k] == a[j];
          assert b[k + 1] == a[j];
        }
        forall i, j | 0 <= i < j < |a| ensures a[i] != a[j] {
          if i > 0 { assert a[i] == a[1..][i - 1] && a[j] == a[1..][j - 1]; }
        }
      } else {
        SubsequenceKeepsNoDup(a, b[1..]);
      }
    }
  }

  /** `handleSelect(service)`: delete the name if present, add it at the end if not. */
  function Toggle(selected: seq<string>, service: string): (r: seq<string>)
    ensures service in r <==> service !in selected
    ensures forall y :: y != service ==> (y in r <==> y in selected)
    ensures NoDup(selected) ==> NoDup(r)
  {
    if service in selected then Delete(selected, service) else selected + [service]
  }

  /** Toggling the same name twice restores the set; it restores the order too
      when the name was absent, and otherwise moves the name to the end. */
  lemma ToggleTwice(selected: seq<string>, service: string)
    requires NoDup(selected)
    ensures forall y :: y in Toggle(Toggle(selected, service), service) <==> y in selected
    ensures service !in selected ==> Toggle(Toggle(selected, service), service) == selected
    ensures service in selected ==> Toggle(Toggle(selected, service), service) == Delete(selected, service) + [service]
  {
    if service !in selected {
      var once := selected + [service];
      assert Delete(once, service) == selected by {
        FilterAppend(selected, [service], (y: string) => y != service);
        FilterKeepsAll(selected, (y: string) => y != service);
      }
    } else {
      var once := Delete(selected, service);
      assert service !in once;
      assert Toggle(once, service) == once + [service];
    }
  }

  /** One "- name" line per selected name, in insertion order. */
  function ItemLines(selected: seq<string>): (r: seq<string>)
    ensures |r| == |selected|
    ensures forall i :: 0 <= i < |r| ==> r[i] == "- " + selected[i]
  {
    seq(|selected|, i requires 0 <= i < |selected| => "- " + selected[i])
  }

  /** `additionalNotes || 'Nenhuma.'`. */
  function NotesText(notes: string): (r: string)
    ensures r != ""
    ensures notes != "" ==> r == notes
  {
    if notes != "" then notes else NoNotes
  }

  /** The message handed to `encodeURIComponent`: it opens with the header
      line and closes with the notes line. */
  function Message(selected: seq<string>, notes: string): (r: string)
    ensures StartsWith(r, Header + "\n")
    ensures |r| >= |NotesLabel + NotesText(notes)|
    ensures r[|r| - |NotesLabel + NotesText(notes)|..] == NotesLabel + NotesText(notes)
  {
    var first := Header + "\n";
    var last := NotesLabel + NotesText(notes);
    var r := first + Join(ItemLines(selected), "\n") + "\n" + last;
    assert r == first + (Join(ItemLines(selected), "\n") + "\n" + last);
    assert r[..|first|] == first;
    assert r == (first + Join(ItemLines(selected), "\n") + "\n") + last;
    r
  }

  /** The message's lines: header, one "- name" line per name, notes line. */
  function MessageLineList(selected: seq<string>, notes: string): seq<string>
  {
    [Header] + ItemLines(selected) + [NotesLabel + NotesText(notes)]
  }

  lemma MessageIsJoin(selected: seq<string>, notes: string)
    requires selected != []
    ensures Message(selected, notes) == Join(MessageLineList(selected, notes), "\n")
  {
    JoinFramed(Header, ItemLines(selected), NotesLabel + NotesText(notes), "\n");
  }

  /** A join of a first line, some middle lines and a last line. */
  lemma JoinFramed(first: string, middle: seq<string>, last: string, sep: string)
    requires middle != []
    ensures Join([first] + middle + [last], sep) == first + sep + Join(middle, sep) + sep + last
  {
    JoinAppend([first], middle + [last], sep);
    JoinAppend(middle, [last], sep);
    assert [first] + middle + [last] == [first] + (middle + [last]);
  }

  lemma HeaderHasNoBreak()
    ensures '\n' !in Header
  {
    assert '\n' !in "Olá, gostaria " && '\n' !in "de um orçamento ";
    assert '\n' !in "para o seguinte " && '\n' !in "pacote personalizado:";
  }

  /** With names and notes free of line breaks, the message's lines are the
      header, one "- name" line per selected name in order, and the notes line. */
  lemma MessageLines(selected: seq<string>, notes: string)
    requires selected != []
    requires forall i :: 0 <= i < |selected| ==> '\n' !in selected[i]
    requires '\n' !in notes
    ensures Split(Message(selected, notes), "\n") == [Header] + ItemLines(selected) + [NotesLabel + NotesText(notes)]
  {
    var all := MessageLineList(selected, notes);
    MessageIsJoin(selected, notes);
    HeaderHasNoBreak();
    assert '\n' !in NoNotes;
    forall k | 0 <= k < |all| ensures "\n"[0] !in all[k] {
      if 1 <= k <= |selected| {
        assert all[k] == "- " + selected[k - 1];
      }
    }
    SplitJoin(all, "\n");
  }

  class PackagePage {
    var selectedItems: seq<string>
    var additionalNotes: string

    ghost predicate Valid()
      reads this
    {
      NoDup(selectedItems)
    }

    constructor ()
      ensures Valid() && selectedItems == [] && additionalNotes == ""
    {
      selectedItems := [];
      additionalNotes := "";
    }

    method HandleSelect(service: string)
      requires Valid()
      modifies this
      ensures Valid() && selectedItems == Toggle(old(selectedItems), service)
      ensures additionalNotes == old(additionalNotes)
    {
      selectedItems := Toggle(selectedItems, service);
    }

    method SetNotes(notes: string)
      modifies this
      ensures additionalNotes == notes && selectedItems == old(selectedItems)
    {
      additionalNotes := notes;
    }

    /** The send button is `disabled` while nothing is selected, so a click
        then sends nothing; otherwise it yields the message to encode. */
    method ClickSend() returns (message: Option<string>)
      ensures message.None? <==> selectedItems == []
      ensures message.Some? ==> message.value == Message(selectedItems, additionalNotes)
    {
      if |selectedItems| == 0 {
        return None;
      }
      message := Some(Message(selectedItems, additionalNotes));
    }
  }
}
