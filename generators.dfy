/** The music-and-maths generators: notes drawn from the seven-note scale,
    the multiples of three from a starting number, an e-mail filter, and the
    split of a note count between worker threads. Random choices are given
    as data, and a generator is modelled by the values a consumer draws. */
module Generators {
  import opened Wrappers
  import opened Numerics

  // ---------------------------------------------------------------- notes

  /** The seven notes `note_generator` chooses from. */
  const Notes: seq<string> := ["до", "ре", "ми", "фа", "соль", "ля", "си"]

  /** `note_generator(limit)`: `limit` notes, none for a limit of 0 or less;
      the k-th is the note at the k-th random index. */
  method NoteGenerator(limit: int, picks: seq<int>) returns (notes: seq<string>)
    requires |picks| >= Count(limit)
    requires forall k :: 0 <= k < |picks| ==> 0 <= picks[k] < |Notes|
    ensures |notes| == Count(limit)
    ensures forall k :: 0 <= k < |notes| ==> notes[k] in Notes && notes[k] == Notes[picks[k]]
  {
    notes := [];
    var count := 0;
    while count < limit
      invariant 0 <= count == |notes| <= Count(limit)
      invariant forall k :: 0 <= k < |notes| ==> notes[k] == Notes[picks[k]]
    {
      notes := notes + [Notes[picks[count]]];
      count := count + 1;
    }
  }

  // ----------------------------------------------------- multiples of three

  /** The smallest multiple of 3 that is at least a. */
  function FirstMultiple(a: int): (m: int)
    ensures m % 3 == 0 && a <= m < a + 3
  {
    a + (3 - a % 3) % 3
  }

  /** `multiples_of_three(a)`, of which the first `count` values are drawn:
      the counter starts at `a`, advances by one, and every multiple of 3 it
      passes is yielded. So the values start at the smallest multiple of 3
      not below `a` and go up by exactly 3. */
  method MultiplesOfThree(a: int, count: nat) returns (values: seq<int>)
    ensures |values| == count
    ensures forall k :: 0 <= k < count ==> values[k] == FirstMultiple(a) + 3 * k
    ensures forall k :: 0 <= k < count ==> values[k] % 3 == 0 && values[k] >= a
    ensures forall k :: 0 <= k < count - 1 ==> values[k + 1] == values[k] + 3
  {
    ghost var first := FirstMultiple(a);
    values := [];
    var current := a;
    while |values| < count
      invariant |values| <= count
      invariant forall k :: 0 <= k < |values| ==> values[k] == first + 3 * k
      invariant a <= current && first + 3 * |values| - 2 <= current <= first + 3 * |values|
      decreases first + 3 * count - current
    {
      if current % 3 == 0 {
        values := values + [current];
      }
      current := current + 1;
    }
  }

  /** The first value the repository's tests expect from the starts 3, 0, -3,
      10, -10 and -100. */
  lemma MultiplesOfThreeExamples()
    ensures FirstMultiple(3) == 3 && FirstMultiple(0) == 0 && FirstMultiple(-3) == -3
    ensures FirstMultiple(10) == 12 && FirstMultiple(-10) == -9 && FirstMultiple(-100) == -99
  {
  }

  // ------------------------------------------------------------ whitespace

  /** The characters `str.strip()` removes: the ASCII whitespace and
      separators, and the Unicode spaces and line and paragraph separators. */
  predicate IsSpace(c: char)
  {
    '\t' <= c <= '\r' || '\U{1C}' <= c <= ' ' || c == '\U{85}' || c == '\U{A0}' || c == '\U{1680}' ||
    '\U{2000}' <= c <= '\U{200A}' || c == '\U{2028}' || c == '\U{2029}' || c == '\U{202F}' ||
    c == '\U{205F}' || c == '\U{3000}'
  }

  /** Where the run of whitespace starting at `from` ends. */
  function SpaceEnd(s: string, from: nat): (n: nat)
    requires from <= |s|
    ensures from <= n <= |s| && (forall k :: from <= k < n ==> IsSpace(s[k]))
    ensures n < |s| ==> !IsSpace(s[n])
    decreases |s| - from
  {
    if from == |s| || !IsSpace(s[from]) then from else SpaceEnd(s, from + 1)
  }

  /** Where the run of whitespace ending at `high`, and not reaching below
      `low`, begins. */
  function SpaceBegin(s: string, low: nat, high: nat): (n: nat)
    requires low <= high <= |s|
    ensures low <= n <= high && (forall k :: n <= k < high ==> IsSpace(s[k]))
    ensures n > low ==> !IsSpace(s[n - 1])
    decreases high
  {
    if high == low || !IsSpace(s[high - 1]) then high else SpaceBegin(s, low, high - 1)
  }

  /** r is the part of s from i on, with whitespace only around it. */
  ghost predicate Surrounds(s: string, i: int, r: string)
  {
    0 <= i <= |s| - |r| && r == s[i..i + |r|] &&
    (forall k :: 0 <= k < i ==> IsSpace(s[k])) && (forall k :: i + |r| <= k < |s| ==> IsSpace(s[k]))
  }

  /** `str.strip()`: the middle part of the string, between the whitespace
      on either side; nothing is left of a string of whitespace. */
  function Strip(s: string): (r: string)
    ensures |r| > 0 ==> !IsSpace(r[0]) && !IsSpace(r[|r| - 1])
    ensures Surrounds(s, SpaceEnd(s, 0), r)
  {
    var i := SpaceEnd(s, 0);
    s[i..SpaceBegin(s, i, |s|)]
  }

  /** Stripping twice is stripping once. */
  lemma StripIdempotent(s: string)
    ensures Strip(Strip(s)) == Strip(s)
  {
    var r := Strip(s);
    if |r| > 0 {
      assert SpaceEnd(r, 0) == 0;
      assert SpaceBegin(r, 0, |r|) == |r|;
    }
  }

  // ---------------------------------------------------------------- e-mail

  /** `[a-zA-Z0-9_]`. */
  predicate IsWordChar(c: char)
  {
    'a' <= c <= 'z' || 'A' <= c <= 'Z' || '0' <= c <= '9' || c == '_'
  }

  /** `[a-zA-Z0-9_]+`. */
  predicate IsWord(s: string)
  {
    |s| > 0 && forall k :: 0 <= k < |s| ==> IsWordChar(s[k])
  }

  /** Where the run of word characters starting at `from` ends. */
  function WordEnd(s: string, from: nat): (n: nat)
    requires from <= |s|
    ensures from <= n <= |s| && (forall k :: from <= k < n ==> IsWordChar(s[k]))
    ensures n < |s| ==> !IsWordChar(s[n])
    decreases |s| - from
  {
    if from == |s| || !IsWordChar(s[from]) then from else WordEnd(s, from + 1)
  }

  /** The pattern `^[a-zA-Z0-9_]+@[a-zA-Z0-9_]+\.[a-zA-Z0-9_]+$`, matched
      left to right: neither separator is a word character, so each word
      runs up to the next separator. */
  function Matches(s: string): bool
  {
    var i := WordEnd(s, 0);
    0 < i < |s| && s[i] == '@' &&
    var j := WordEnd(s, i + 1);
    i + 1 < j < |s| && s[j] == '.' && j + 1 < |s| && WordEnd(s, j + 1) == |s|
  }

  /** s is the three words a, b and c joined as `a@b.c`. */
  ghost predicate Joins(s: string, a: string, b: string, c: string)
  {
    IsWord(a) && IsWord(b) && IsWord(c) && s == a + "@" + b + "." + c
  }

  /** A run of word characters from `from` to `end`, followed by a
      non-word character or by the end of the string, ends at `end`. */
  lemma WordEndAt(s: string, from: nat, end: nat)
    requires from <= end <= |s| && (forall k :: from <= k < end ==> IsWordChar(s[k]))
    requires end < |s| ==> !IsWordChar(s[end])
    ensures WordEnd(s, from) == end
  {
  }

  /** A string the matcher accepts is three words joined as `a@b.c`. */
  lemma MatchesJoins(s: string)
    requires Matches(s)
    ensures exists a, b, c :: Joins(s, a, b, c)
  {
    var i := WordEnd(s, 0);
    var j := WordEnd(s, i + 1);
    var a, b, c := s[..i], s[i + 1..j], s[j + 1..];
    assert s == a + "@" + b + "." + c;
    assert Joins(s, a, b, c);
  }

  /** Three words joined as `a@b.c` are accepted by the matcher. */
  lemma JoinsMatches(s: string, a: string, b: string, c: string)
    requires Joins(s, a, b, c)
    ensures Matches(s)
  {
    var i, j := |a|, |a| + 1 + |b|;
    assert s[i] == '@' && s[j] == '.' && |s| == j + 1 + |c|;
    assert forall k :: 0 <= k < i ==> s[k] == a[k];
    assert forall k :: i + 1 <= k < j ==> s[k] == b[k - i - 1];
    assert forall k :: j + 1 <= k < |s| ==> s[k] == c[k - j - 1];
    WordEndAt(s, 0, i);
    WordEndAt(s, i + 1, j);
    WordEndAt(s, j + 1, |s|);
  }

  /** The matcher accepts exactly the strings of the form `a@b.c` for three
      words a, b and c. */
  lemma MatchesIffJoins(s: string)
    ensures Matches(s) <==> exists a, b, c :: Joins(s, a, b, c)
  {
    if Matches(s) {
      MatchesJoins(s);
    }
    if exists a, b, c :: Joins(s, a, b, c) {
      var a, b, c :| Joins(s, a, b, c);
      JoinsMatches(s, a, b, c);
    }
  }

  /** An entry of the argument list: a string, or anything else, whose
      `strip()` or the match raises and is skipped. */
  datatype Entry = Text(text: string) | NonText

  /** The argument of `validate_emails`: `None`, a list or tuple, or any
      other value. */
  datatype EmailArg = NoneArg | Entries(entries: seq<Entry>) | OtherArg

  /** What one entry contributes: its stripped form when that matches. */
  function Keep(e: Entry): seq<string>
  {
    if e.Text? && Matches(Strip(e.text)) then [Strip(e.text)] else []
  }

  /** The stripped form of every string entry that matches, in entry order. */
  function Kept(entries: seq<Entry>): seq<string>
  {
    if |entries| == 0 then [] else Kept(entries[..|entries| - 1]) + Keep(entries[|entries| - 1])
  }

  /** What `validate_emails` returns: nothing unless the argument is a list or tuple. */
  function Accepted(arg: EmailArg): seq<string>
  {
    if arg.Entries? then Kept(arg.entries) else []
  }

  /** `validate_emails`. */
  method ValidateEmails(emailList: EmailArg) returns (validEmails: seq<string>)
    ensures validEmails == Accepted(emailList)
  {
    if !emailList.Entries? {
      return [];
    }
    var entries := emailList.entries;
    validEmails := [];
    for k := 0 to |entries|
      invariant validEmails == Kept(entries[..k])
    {
      assert entries[..k + 1][..k] == entries[..k];
      match entries[k]
      case NonText =>
      case Text(email) =>
        if Matches(Strip(email)) {
          validEmails := validEmails + [Strip(email)];
        }
    }
    assert entries[..|entries|] == entries;
  }

  /** The filter keeps entry order: the kept part of two lists one after the
      other is the kept part of each, one after the other. */
  lemma {:induction false} KeptConcat(a: seq<Entry>, b: seq<Entry>)
    ensures Kept(a + b) == Kept(a) + Kept(b)
    decreases |b|
  {
    if |b| > 0 {
      assert (a + b)[..|a + b| - 1] == a + b[..|b| - 1];
      KeptConcat(a, b[..|b| - 1]);
    } else {
      assert a + b == a;
    }
  }

  /** Everything kept is an address of the form `a@b.c` with no surrounding
      whitespace, obtained by stripping one of the string entries. */
  lemma {:induction false} KeptSound(entries: seq<Entry>)
    ensures forall e :: e in Kept(entries) ==>
      Matches(e) && Strip(e) == e && exists k :: 0 <= k < |entries| && entries[k].Text? && Strip(entries[k].text) == e
  {
    if |entries| > 0 {
      var init := entries[..|entries| - 1];
      KeptSound(init);
      var last := entries[|entries| - 1];
      forall e | e in Kept(entries)
        ensures Matches(e) && Strip(e) == e &&
          exists k :: 0 <= k < |entries| && entries[k].Text? && Strip(entries[k].text) == e
      {
        if e in Kept(init) {
          var k :| 0 <= k < |init| && init[k].Text? && Strip(init[k].text) == e;
          assert entries[k] == init[k];
        } else {
          assert last.Text? && e == Strip(last.text);
          StripIdempotent(last.text);
        }
      }
    }
  }

  /** Every string entry that matches once stripped is kept. */
  lemma {:induction false} KeptComplete(entries: seq<Entry>, k: int)
    requires 0 <= k < |entries| && entries[k].Text? && Matches(Strip(entries[k].text))
    ensures Strip(entries[k].text) in Kept(entries)
  {
    var before, after := entries[..k + 1], entries[k + 1..];
    assert entries == before + after;
    KeptConcat(before, after);
    assert before[..|before| - 1] == entries[..k];
  }

  /** Empty and whitespace-only entries are never kept. */
  lemma BlankNotKept(s: string)
    requires forall k :: 0 <= k < |s| ==> IsSpace(s[k])
    ensures !Matches(Strip(s))
  {
    assert |Strip(s)| == 0;
  }

  /** An address the tests expect to be kept. */
  lemma EmailExampleKept()
    ensures Matches("test@mail.com")
  {
    WordEndAt("test@mail.com", 0, 4);
    WordEndAt("test@mail.com", 5, 9);
    WordEndAt("test@mail.com", 10, 13);
  }

  /** The addresses the tests expect to be refused: no '@', no '.' after
      it, a space in the first word, an empty first word, and nothing. */
  lemma EmailExamplesRefused()
    ensures !Matches("invalid-email") && !Matches("no@tld") && !Matches("spaces in@name.com")
    ensures !Matches("@nodomain.com") && !Matches("")
  {
    WordEndAt("invalid-email", 0, 7);
    WordEndAt("no@tld", 0, 2);
    WordEndAt("no@tld", 3, 6);
    WordEndAt("spaces in@name.com", 0, 6);
  }

  // --------------------------------------------------------- chunk arithmetic

  /** The sum of the sizes. */
  function Total(s: seq<int>): int
  {
    if |s| == 0 then 0 else Total(s[..|s| - 1]) + s[|s| - 1]
  }

  /** The first n sizes of a split with base size `base` of which the first
      `extra` get one more. */
  function Sizes(base: int, extra: int, n: nat): (s: seq<int>)
    ensures |s| == n
  {
    seq(n, k => base + (if k < extra then 1 else 0))
  }

  /** n sizes add up to n times the base and one for each of the first
      `extra` of them. */
  lemma {:induction false} TotalOfSizes(base: int, extra: int, n: nat)
    ensures Total(Sizes(base, extra, n)) == n * base + (if n < extra then n else if extra < 0 then 0 else extra)
  {
    if n > 0 {
      assert Sizes(base, extra, n)[..n - 1] == Sizes(base, extra, n - 1);
      TotalOfSizes(base, extra, n - 1);
      assert n * base == (n - 1) * base + base;
    }
  }

  /** The split of `limit` notes between `parts` threads or chunks in
      `threaded_note_generator` and `parallel_note_generator`: each part gets
      `limit // parts`, and the first `limit % parts` one more. Zero parts is
      a division by zero; fewer than zero parts give no part at all. For one
      part or more the sizes add up to `limit` and differ by at most one,
      larger ones first. */
  method ChunkSizes(limit: int, parts: int) returns (sizes: Option<seq<int>>)
    ensures sizes.None? <==> parts == 0
    ensures parts < 0 ==> sizes == Some([])
    ensures parts > 0 ==> sizes.Some? && |sizes.value| == parts && Total(sizes.value) == limit
    ensures parts > 0 ==> forall i, j :: 0 <= i < parts && 0 <= j < parts ==>
      -1 <= sizes.value[i] - sizes.value[j] <= 1 && (i <= j ==> sizes.value[i] >= sizes.value[j])
  {
    if parts == 0 {
      return None;
    }
    if parts < 0 {
      return Some([]);
    }
    var base := limit / parts;
    var extra := limit % parts;
    var chunks := [];
    for i := 0 to parts
      invariant chunks == Sizes(base, extra, i)
    {
      chunks := chunks + [base + (if i < extra then 1 else 0)];
    }
    TotalOfSizes(base, extra, parts);
    return Some(chunks);
  }
}
