/** The text handed to the puller, and how the puller's shell script takes it apart again. */
module PullerText {
  function Join(words: seq<string>, sep: char): string {
    if words == [] then "" else if |words| == 1 then words[0] else words[0] + [sep] + Join(words[1..], sep)
  }

  function Texts(entries: seq<seq<string>>): (ts: seq<string>)
    ensures |ts| == |entries| && forall i :: 0 <= i < |ts| ==> ts[i] == Join(entries[i], ',')
  {
    if entries == [] then [] else [Join(entries[0], ',')] + Texts(entries[1..])
  }

  function Format(entries: seq<seq<string>>): string { Join(Texts(entries), ':') }

  lemma TextsSnoc(entries: seq<seq<string>>, e: seq<string>)
    ensures Texts(entries + [e]) == Texts(entries) + [Join(e, ',')]
  {
  }

  lemma JoinThree(a: string, b: string, c: string)
    ensures Join([a, b, c], ',') == a + "," + b + "," + c
  {
    assert [a, b, c][1..] == [b, c] && [b, c][1..] == [c];
    assert Join([b, c], ',') == b + "," + c;
    assert a + "," + (b + "," + c) == a + "," + b + "," + c;
  }

  const BLANKS: set<char> := {' ', '\t', '\n'}

  /** Word splitting: maximal runs without separators; `cur` is the run being read. */
  function Words(s: string, seps: set<char>, cur: string): seq<string> {
    if s == "" then (if cur == "" then [] else [cur])
    else if s[0] in seps then (if cur == "" then [] else [cur]) + Words(s[1..], seps, "")
    else Words(s[1..], seps, cur + [s[0]])
  }

  function SplitAll(files: seq<string>): (es: seq<seq<string>>)
    ensures |es| == |files| && forall i :: 0 <= i < |es| ==> es[i] == Words(files[i], BLANKS + {','}, "")
  {
    if files == [] then [] else [Words(files[0], BLANKS + {','}, "")] + SplitAll(files[1..])
  }

  /** The script: colons become blanks and the argument splits into files, then commas and each file into pieces. */
  function Read(text: string): seq<seq<string>> {
    SplitAll(Words(text, BLANKS + {':'}, ""))
  }

  /** A word the splitting leaves whole. */
  predicate Clean(w: string, seps: set<char>) {
    w != "" && forall i :: 0 <= i < |w| ==> w[i] !in seps
  }

  predicate AllClean(ws: seq<string>, seps: set<char>) {
    forall i :: 0 <= i < |ws| ==> Clean(ws[i], seps)
  }

  predicate AllPlain(entries: seq<seq<string>>) {
    forall i :: 0 <= i < |entries| ==> AllClean(entries[i], BLANKS + {':', ','})
  }

  // ---------------------------------------------------------------- splitting undoes joining

  lemma {:induction false} WordsSkip(w: string, rest: string, seps: set<char>, cur: string)
    requires forall i :: 0 <= i < |w| ==> w[i] !in seps
    ensures Words(w + rest, seps, cur) == Words(rest, seps, cur + w)
  {
    if w == "" {
      assert w + rest == rest && cur + w == cur;
    } else {
      assert (w + rest)[1..] == w[1..] + rest;
      assert cur + [w[0]] + w[1..] == cur + w;
      WordsSkip(w[1..], rest, seps, cur + [w[0]]);
    }
  }

  lemma {:induction false} SplitJoin(words: seq<string>, sep: char, seps: set<char>)
    requires AllClean(words, seps) && sep in seps
    ensures Words(Join(words, sep), seps, "") == words
  {
    if words != [] {
      var w := words[0];
      assert Clean(w, seps);
      assert "" + w == w;
      if |words| == 1 {
        assert w + "" == w;
        WordsSkip(w, "", seps, "");
      } else {
        var rest := [sep] + Join(words[1..], sep);
        assert Join(words, sep) == w + rest;
        WordsSkip(w, rest, seps, "");
        assert rest[1..] == Join(words[1..], sep);
        SplitJoin(words[1..], sep, seps);
      }
    }
  }

  // ---------------------------------------------------------------- what a word can be

  /** Words are non-empty, have no separator, and only characters of the text. */
  lemma {:induction false} WordsAreClean(s: string, seps: set<char>, cur: string)
    requires forall i :: 0 <= i < |cur| ==> cur[i] !in seps
    ensures AllClean(Words(s, seps, cur), seps)
    ensures forall i :: 0 <= i < |Words(s, seps, cur)| ==> Chars(Words(s, seps, cur)[i]) <= Chars(s) + Chars(cur)
  {
    if s != "" {
      if s[0] in seps {
        WordsAreClean(s[1..], seps, "");
      } else {
        WordsAreClean(s[1..], seps, cur + [s[0]]);
      }
    }
  }

  function Chars(s: string): set<char> { set c | c in s }

  lemma ReadIsPlain(text: string)
    ensures AllPlain(Read(text))
  {
    var files := Words(text, BLANKS + {':'}, "");
    WordsAreClean(text, BLANKS + {':'}, "");
    forall i | 0 <= i < |files| ensures AllClean(Read(text)[i], BLANKS + {':', ','}) {
      assert Clean(files[i], BLANKS + {':'});
      WordsAreClean(files[i], BLANKS + {','}, "");
      var pieces := Words(files[i], BLANKS + {','}, "");
      forall j | 0 <= j < |pieces| ensures Clean(pieces[j], BLANKS + {':', ','}) {
        forall k | 0 <= k < |pieces[j]| ensures pieces[j][k] !in BLANKS + {':', ','} {
          assert pieces[j][k] in Chars(pieces[j]);
        }
      }
    }
  }

  lemma {:induction false} JoinClean(e: seq<string>, sep: char, seps: set<char>)
    requires e != [] && AllClean(e, seps) && sep !in seps
    ensures Clean(Join(e, sep), seps)
  {
    assert Clean(e[0], seps);
    if |e| > 1 {
      JoinClean(e[1..], sep, seps);
    }
  }

  /** The puller reads back exactly the entries it was told if and only if every piece is non-empty and has no
      colon, comma or blank. */
  lemma ReadFormat(entries: seq<seq<string>>)
    requires forall i :: 0 <= i < |entries| ==> entries[i] != []
    ensures Read(Format(entries)) == entries <==> AllPlain(entries)
  {
    ReadIsPlain(Format(entries));
    if AllPlain(entries) {
      var texts := Texts(entries);
      forall i | 0 <= i < |texts| ensures Clean(texts[i], BLANKS + {':'}) &&
          Words(texts[i], BLANKS + {','}, "") == entries[i] {
        assert AllClean(entries[i], BLANKS + {':', ','});
        forall j | 0 <= j < |entries[i]| ensures Clean(entries[i][j], BLANKS + {':'}) &&
            Clean(entries[i][j], BLANKS + {','}) {
          assert Clean(entries[i][j], BLANKS + {':', ','});
        }
        JoinClean(entries[i], ',', BLANKS + {':'});
        SplitJoin(entries[i], ',', BLANKS + {','});
      }
      SplitJoin(texts, ':', BLANKS + {':'});
      assert Words(Format(entries), BLANKS + {':'}, "") == texts;
    }
  }

  /** A key with a colon becomes two files. */
  lemma ColonSplits()
    ensures Read(Format([["a:b"]])) == [["a"], ["b"]]
  {
    assert Texts([["a:b"]]) == ["a:b"];
    SplitJoin(["a", "b"], ':', BLANKS + {':'});
    assert ["a", "b"][1..] == ["b"];
    assert Join(["a", "b"], ':') == "a" + ":" + "b" == "a:b";
    SplitJoin(["a"], ',', BLANKS + {','});
    SplitJoin(["b"], ',', BLANKS + {','});
    assert SplitAll(["a", "b"]) == [["a"], ["b"]];
  }
}
