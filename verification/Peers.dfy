/** The stable spelling of a Telegram chat. */
module Peers {
  import opened Text

  predicate IsLetter(c: char) { 'a' <= c <= 'z' || 'A' <= c <= 'Z' }

  function StripAt(s: string): string {
    if s != "" && s[0] == '@' then StripAt(s[1..]) else s
  }

  /** `@handle` in lower case for names, the trimmed text for numeric ids. */
  function Canonical(raw: string): string {
    var text := Strip(raw);
    if text == "" then ""
    else
      var bare := StripAt(text);
      if text[0] == '@' || (exists i :: 0 <= i < |bare| && (IsLetter(bare[i]) || bare[i] == '_'))
      then "@" + Lower(bare) else text
  }

  lemma {:induction false} StripAtShape(s: string)
    ensures StripAt(s) == "" || StripAt(s)[0] != '@'
    ensures StripAt(s) != "" ==> s != "" && StripAt(s)[|StripAt(s)| - 1] == s[|s| - 1]
    ensures s == "" || s[0] != '@' ==> StripAt(s) == s
  {
    if s != "" && s[0] == '@' { StripAtShape(s[1..]); }
  }

  /** Spelling a chat canonically twice changes nothing more. */
  lemma CanonicalIdempotent(raw: string)
    ensures Canonical(Canonical(raw)) == Canonical(raw)
  {
    var text := Strip(raw);
    StripTrims(raw);
    if text != "" {
      var bare := StripAt(text);
      StripAtShape(text);
      if Canonical(raw) == text {
        TrimmedIsFixed(text);
      } else {
        HandleIsFixed(bare);
      }
    }
  }

  lemma HandleIsFixed(bare: string)
    requires bare == "" || (bare[0] != '@' && !IsSpace(bare[|bare| - 1]))
    ensures Canonical("@" + Lower(bare)) == "@" + Lower(bare)
  {
    var low, handle := Lower(bare), "@" + Lower(bare);
    assert handle[|handle| - 1] == if low == "" then '@' else low[|low| - 1];
    assert Trimmed(handle);
    TrimmedIsFixed(handle);
    StripAtShape(low);
    assert handle[0] == '@' && handle[1..] == low;
    assert StripAt(handle) == low;
    LowerIdempotent(bare);
  }

  predicate AllAt(s: string) { forall i :: 0 <= i < |s| ==> s[i] == '@' }

  lemma {:induction false} StripAtOf(ats: string, name: string)
    requires AllAt(ats) && (name == "" || name[0] != '@')
    ensures StripAt(ats + name) == name
  {
    if ats == "" {
      assert ats + name == name;
    } else {
      StripAtOf(ats[1..], name);
      assert (ats + name)[1..] == ats[1..] + name;
    }
  }

  predicate NameLike(s: string) {
    exists i :: 0 <= i < |s| && ('a' <= s[i] <= 'z' || 'A' <= s[i] <= 'Z' || s[i] == '_')
  }

  /**
   * The spellings of one chat: a name, with or without `@`, in any case and with white space around it,
   * becomes `@name` in lower case, and a numeric id stays as it is.
   */
  lemma CanonicalExactly(before: string, ats: string, name: string, after: string)
    requires AllSpace(before) && AllSpace(after) && AllAt(ats) && name != "" && name[0] != '@' && Trimmed(name)
    ensures Canonical(before + (ats + name) + after) ==
      if ats != "" || NameLike(name) then "@" + Lower(name) else name
  {
    var raw, text := before + (ats + name) + after, ats + name;
    StripOf(before, text, after);
    StripAtOf(ats, name);
    SpelledAs(raw, text, name);
    assert ats == "" ==> text == name;
    assert ats != "" ==> text[0] == '@';
  }

  lemma SpelledAs(raw: string, text: string, name: string)
    requires Strip(raw) == text && text != "" && StripAt(text) == name
    ensures Canonical(raw) == if text[0] == '@' || NameLike(name) then "@" + Lower(name) else text
  {
  }

  /** The key a chat is filed under: its canonical spelling, if it has one. */
  function KeyOf(raw: string): string { if Canonical(raw) == "" then raw else Canonical(raw) }

  lemma KeyOfIdempotent(raw: string)
    ensures KeyOf(KeyOf(raw)) == KeyOf(raw)
  {
    CanonicalIdempotent(raw);
  }
}
