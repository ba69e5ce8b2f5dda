/** Python's `part in text` on strings. */
module Strings {
  predicate Within(part: string, text: string) {
    exists i :: 0 <= i <= |text| && part <= text[i..]
  }

  lemma WithinAnything(name: string)
    ensures Within("", name)
  {
    assert "" <= name[0..];
  }

  /** A part is what is left when something is taken off both ends. */
  lemma WithinExactly(part: string, text: string)
    ensures Within(part, text) <==> exists before, after :: text == before + part + after
  {
    if i :| 0 <= i <= |text| && part <= text[i..] {
      assert text == text[..i] + part + text[i..][|part|..];
    }
    if before, after :| text == before + part + after {
      assert part <= text[|before|..];
    }
  }
}
