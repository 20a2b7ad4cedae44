/** The round avatar: an image when a source is given, otherwise up to two
    initials on a background colour chosen from the name. */
module Avatar {
  import opened Wrappers
  import opened Seqs
  import opened Text

  function NonEmpty(): string -> bool {
    (w: string) => w != ""
  }

  /** `parts.map(part => part[0]).join('')`: an empty part yields `undefined`,
      which `join` writes as nothing. */
  function FirstChars(parts: seq<string>): (r: string)
    ensures |r| <= |parts|
    ensures forall i :: 0 <= i < |r| ==> exists j :: 0 <= j < |parts| && parts[j] != "" && r[i] == parts[j][0]
    decreases |parts|
  {
    if parts == [] then ""
    else
      var rest := FirstChars(parts[1..]);
      var head := if parts[0] == "" then "" else [parts[0][0]];
      assert forall i :: 0 <= i < |rest| ==> exists j :: 1 <= j < |parts| && parts[j] != "" && rest[i] == parts[j][0];
      head + rest
  }

  /** One character per non-empty part: the first character of each, in order. */
  lemma {:induction false} FirstCharsOfWords(parts: seq<string>)
    ensures var words := Filter(parts, NonEmpty());
            |FirstChars(parts)| == |words| &&
            forall i :: 0 <= i < |words| ==> words[i] != "" && FirstChars(parts)[i] == words[i][0]
    decreases |parts|
  {
    if parts != [] {
      FirstCharsOfWords(parts[1..]);
      assert [parts[0]] + parts[1..] == parts;
      FilterCons(parts[0], parts[1..], NonEmpty());
      var words, rest := Filter(parts, NonEmpty()), Filter(parts[1..], NonEmpty());
      if parts[0] != "" {
        assert words == [parts[0]] + rest;
        assert FirstChars(parts) == [parts[0][0]] + FirstChars(parts[1..]);
        HeadsCons(parts[0], rest, FirstChars(parts[1..]));
      } else {
        assert words == rest;
        assert FirstChars(parts) == FirstChars(parts[1..]);
      }
    }
  }

  /** Empty parts, from repeated or surrounding spaces, contribute nothing. */
  lemma {:induction false} FirstCharsSkipEmpty(a: seq<string>, b: seq<string>)
    ensures FirstChars(a + [""] + b) == FirstChars(a + b)
    decreases |a|
  {
    if a == [] {
      assert a + [""] + b == [""] + b && a + b == b;
      assert ([""] + b)[1..] == b;
    } else {
      FirstCharsSkipEmpty(a[1..], b);
      assert (a + [""] + b)[1..] == a[1..] + [""] + b;
      assert (a + b)[1..] == a[1..] + b;
    }
  }

  /** `chars` holds the first character of each word of `words`, and stays so
      when one more word is put in front. */
  lemma HeadsCons(w: string, words: seq<string>, chars: string)
    requires w != ""
    requires |chars| == |words| && forall i :: 0 <= i < |words| ==> words[i] != "" && chars[i] == words[i][0]
    ensures var ws, cs := [w] + words, [w[0]] + chars;
            |cs| == |ws| && forall i :: 0 <= i < |ws| ==> ws[i] != "" && cs[i] == ws[i][0]
  {
  }

  /** `initials`: the first letters of the space-separated words, upper-cased,
      at most two. */
  function Initials(name: string): (r: string)
    ensures |r| <= 2
    ensures forall i :: 0 <= i < |r| ==> !('a' <= r[i] <= 'z')
    // the first two non-empty words, or as many as there are, each by its upper-cased first character
    ensures var words := Filter(Split(name, ' '), NonEmpty());
            |r| == (if |words| < 2 then |words| else 2) &&
            forall i :: 0 <= i < |r| ==> words[i] != "" && r[i] == UpperChar(words[i][0])
  {
    var parts := Split(name, ' ');
    FirstCharsOfWords(parts);
    TakeUpper(FirstChars(parts), Filter(parts, NonEmpty()));
    Take(Upper(FirstChars(parts)), 2)
  }

  lemma TakeUpper(chars: string, words: seq<string>)
    requires |chars| == |words|
    requires forall i :: 0 <= i < |words| ==> words[i] != "" && chars[i] == words[i][0]
    ensures var r := Take(Upper(chars), 2);
            |r| == (if |words| < 2 then |words| else 2) &&
            forall i :: 0 <= i < |r| ==> words[i] != "" && r[i] == UpperChar(words[i][0])
  {
  }

  /** A single word gives its upper-cased first letter. */
  lemma OneWordInitial(w: string)
    requires w != "" && ' ' !in w
    ensures Initials(w) == [UpperChar(w[0])]
  {
    SplitWord(w, ' ');
    assert FirstChars([w]) == [w[0]];
  }

  /** Two words give both first letters, upper-cased, in order. */
  lemma TwoWordInitials(first: string, last: string)
    requires first != "" && ' ' !in first
    requires last != "" && ' ' !in last
    ensures Initials(first + " " + last) == [UpperChar(first[0]), UpperChar(last[0])]
  {
    assert first + " " + last == first + [' '] + last;
    SplitFirstWord(first, ' ', last);
    SplitWord(last, ' ');
    var parts := Split(first + " " + last, ' ');
    assert parts == [first, last];
    assert parts[1..] == [last] && [last][1..] == [];
    assert FirstChars([last]) == [last[0]] + FirstChars([]);
    var chars := FirstChars(parts);
    assert chars == [first[0]] + FirstChars([last]);
    var upper := Upper(chars);
    assert upper == [UpperChar(first[0]), UpperChar(last[0])];
  }

  /** The demo student's avatar reads "SO". */
  lemma DemoInitials()
    ensures Initials("Student One") == "SO"
  {
    assert "Student One" == "Student" + " " + "One";
    TwoWordInitials("Student", "One");
  }

  /** `s.split('').reduce((acc, char) => acc + char.charCodeAt(0), 0)`. */
  function CodeSum(s: string): (r: nat)
    ensures s == [] ==> r == 0
    ensures |s| == 1 ==> r == s[0] as nat
    ensures forall i :: 0 <= i < |s| ==> s[i] as nat <= r
    decreases |s|
  {
    if s == [] then 0 else CodeSum(s[..|s| - 1]) + s[|s| - 1] as nat
  }

  /** The code sum of a concatenation is the sum of the code sums, so the
      colour does not depend on how the name is cut into pieces. */
  lemma {:induction false} CodeSumAppend(a: string, b: string)
    ensures CodeSum(a + b) == CodeSum(a) + CodeSum(b)
    decreases |b|
  {
    if b == [] {
      assert a + b == a;
    } else {
      CodeSumAppend(a, b[..|b| - 1]);
      assert (a + b)[..|a + b| - 1] == a + b[..|b| - 1];
    }
  }

  const Colors: seq<string> := [
    "bg-blue-500", "bg-purple-500", "bg-green-500", "bg-yellow-500",
    "bg-red-500", "bg-pink-500", "bg-indigo-500"
  ]

  /** `colorIndex`: the code sum modulo the number of colours. */
  function ColorIndex(name: string): (i: nat)
    ensures i < |Colors|
    ensures (CodeSum(name) - i) % |Colors| == 0
  {
    CodeSum(name) % |Colors|
  }

  datatype AvatarView = Picture(src: string, alt: string) | Lettered(background: string, initials: string)

  /** What the avatar draws: a truthy `src` gives the picture alone, with no
      background colour and no initials. */
  function Render(name: string, src: Option<string>): (v: AvatarView)
    ensures v.Picture? <==> src.Some? && src.value != ""
    ensures v.Picture? ==> v.src == src.value && v.alt == name
    ensures v.Lettered? ==> v.background == Colors[ColorIndex(name)] && v.initials == Initials(name)
  {
    if src.Some? && src.value != "" then Picture(src.value, name)
    else Lettered(Colors[ColorIndex(name)], Initials(name))
  }
}
