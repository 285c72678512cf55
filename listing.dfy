/** The text predicates both tools apply to `virsh` listings: whitespace-token membership
    (`machine_exists` and `volume_exists` of virt_compose.py) and substring membership
    (`is_running` and `domain_exists` of libvirt-compose.py, `machine_is_running` of
    virt_compose.py). */
module Listing {
  import opened Text
  import opened Hypervisor

  /** `name in output.split()`. */
  predicate HasToken(name: string, output: string) {
    name in Tokens(output)
  }

  /** `name in output`. */
  predicate HasSubstring(name: string, output: string) {
    IsSubstring(name, output)
  }

  predicate IsWord(w: string) {
    w != [] && NoSpace(w)
  }

  predicate AllWords(ws: seq<string>) {
    forall i :: 0 <= i < |ws| ==> IsWord(ws[i])
  }

  predicate LinesOfWords(lines: seq<seq<string>>) {
    forall i :: 0 <= i < |lines| ==> AllWords(lines[i])
  }

  function Flatten(lines: seq<seq<string>>): seq<string> {
    if lines == [] then [] else lines[0] + Flatten(lines[1..])
  }

  lemma TokensSkipSpace(c: char, x: string)
    requires IsSpace(c)
    ensures Tokens([c] + x) == Tokens(x)
  {
    assert ([c] + x)[1..] == x;
  }

  lemma LineStartsBlank(ws: seq<string>)
    ensures Line(ws) != [] && IsSpace(Line(ws)[0])
  {
  }

  /** A blank, a word, then text that opens with whitespace: the word is the first token. */
  lemma WordThenBlank(w: string, tail: string, rest: string)
    requires IsWord(w) && tail != [] && IsSpace(tail[0])
    ensures Tokens([' '] + w + tail + rest) == [w] + Tokens(tail + rest)
  {
    var t0, more := tail[0], tail[1..] + rest;
    assert tail + rest == [t0] + more;
    assert [' '] + w + tail + rest == [' '] + (w + [t0] + more);
    TokensSkipSpace(' ', w + [t0] + more);
    TokensSplitAtSpace(w, t0, more);
    TokensOfWord(w);
    TokensSkipSpace(t0, more);
  }

  lemma {:induction false} TokensOfLine(ws: seq<string>, rest: string)
    requires AllWords(ws)
    ensures Tokens(Line(ws) + rest) == ws + Tokens(rest)
  {
    if ws == [] {
      TokensSkipSpace('\n', rest);
    } else {
      assert AllWords(ws[1..]) by {
        forall i | 0 <= i < |ws[1..]| ensures IsWord(ws[1..][i]) {
          assert ws[1..][i] == ws[i + 1];
        }
      }
      TokensOfLine(ws[1..], rest);
      LineStartsBlank(ws[1..]);
      assert Line(ws) == [' '] + ws[0] + Line(ws[1..]);
      WordThenBlank(ws[0], Line(ws[1..]), rest);
    }
  }

  /** The words of a printed table are its tokens. */
  lemma {:induction false} TokensOfRender(lines: seq<seq<string>>)
    requires LinesOfWords(lines)
    ensures Tokens(Render(lines)) == Flatten(lines)
  {
    if lines != [] {
      assert LinesOfWords(lines[1..]) by {
        forall i | 0 <= i < |lines[1..]| ensures AllWords(lines[1..][i]) {
          assert lines[1..][i] == lines[i + 1];
        }
      }
      TokensOfRender(lines[1..]);
      assert AllWords(lines[0]);
      TokensOfLine(lines[0], Render(lines[1..]));
    }
  }

  lemma {:induction false} SubstringOfLine(w: string, ws: seq<string>, rest: string)
    requires w in ws
    ensures IsSubstring(w, Line(ws) + rest)
  {
    var s := Line(ws) + rest;
    if ws[0] == w {
      assert s == " " + w + (Line(ws[1..]) + rest);
      SubstringInside(w, " ", Line(ws[1..]) + rest);
    } else {
      SubstringOfLine(w, ws[1..], rest);
      assert s == (" " + ws[0]) + (Line(ws[1..]) + rest);
      SubstringOfConcat(w, " " + ws[0], Line(ws[1..]) + rest);
    }
  }

  /** Every word of a printed table occurs in its text. */
  lemma {:induction false} SubstringOfRender(w: string, lines: seq<seq<string>>, i: nat)
    requires i < |lines| && w in lines[i]
    ensures IsSubstring(w, Render(lines))
  {
    if i == 0 {
      SubstringOfLine(w, lines[0], Render(lines[1..]));
    } else {
      SubstringOfRender(w, lines[1..], i - 1);
      SubstringOfConcat(w, Line(lines[0]), Render(lines[1..]));
    }
  }

  lemma {:induction false} SubstringTransitive(a: string, b: string, c: string)
    requires IsSubstring(a, b) && IsSubstring(b, c)
    ensures IsSubstring(a, c)
    decreases |c|
  {
    if IsPrefix(b, c) {
      PrefixSubstring(a, b, c);
    } else {
      SubstringTransitive(a, b, c[1..]);
    }
  }

  lemma {:induction false} PrefixSubstring(a: string, b: string, c: string)
    requires IsSubstring(a, b) && IsPrefix(b, c)
    ensures IsSubstring(a, c)
    decreases |b|
  {
    if IsPrefix(a, b) {
      assert c[..|a|] == b[..|a|];
    } else {
      assert IsPrefix(b[1..], c[1..]) by {
        assert c[1..][..|b| - 1] == c[..|b|][1..];
      }
      PrefixSubstring(a, b[1..], c[1..]);
    }
  }

  predicate AllDigits(s: string) {
    forall i :: 0 <= i < |s| ==> '0' <= s[i] <= '9'
  }

  /** A domain or volume name the listings cannot confuse with anything else they print:
      one word, none of the header words or state words, not a number, without `/`. */
  predicate Clean(name: string) {
    IsWord(name) && !AllDigits(name) && '/' !in name && name != Rule
    && name != "Id" && name != "Name" && name != "State" && name != "Path"
    && name != "-" && name != "running" && name != "shut" && name != "off"
  }

  lemma RowWords(k: nat, n: string, running: bool)
    requires IsWord(n)
    ensures AllWords(DomainRow(k, n, running))
  {
    var id := IntToString(k + 1);
    assert IsWord(id);
    assert IsWord("running") && IsWord("shut") && IsWord("off") && IsWord("-");
  }

  lemma {:induction false} AllRowsWords(ds: seq<string>, running: set<string>, k: nat)
    requires AllWords(ds)
    ensures LinesOfWords(AllRows(ds, running, k))
    decreases |ds|
  {
    if ds != [] {
      assert IsWord(ds[0]);
      RowWords(k, ds[0], ds[0] in running);
      assert AllWords(ds[1..]) by {
        forall i | 0 <= i < |ds[1..]| ensures IsWord(ds[1..][i]) {
          assert ds[1..][i] == ds[i + 1];
        }
      }
      AllRowsWords(ds[1..], running, k + 1);
    }
  }

  lemma {:induction false} FlattenAppend(a: seq<seq<string>>, b: seq<seq<string>>)
    ensures Flatten(a + b) == Flatten(a) + Flatten(b)
  {
    if a != [] {
      assert (a + b)[1..] == a[1..] + b;
      FlattenAppend(a[1..], b);
    } else {
      assert a + b == b;
    }
  }

  lemma RowHolds(name: string, k: nat, n: string, running: bool)
    requires Clean(name)
    ensures name in DomainRow(k, n, running) <==> name == n
  {
    if running {
      var id := NatToString(k + 1);
      assert IntToString(k + 1) == id;
      assert AllDigits(id);
    }
  }

  lemma {:induction false} InAllRows(name: string, ds: seq<string>, running: set<string>, k: nat)
    requires Clean(name)
    ensures name in Flatten(AllRows(ds, running, k)) <==> name in ds
    decreases |ds|
  {
    if ds != [] {
      InAllRows(name, ds[1..], running, k + 1);
      RowHolds(name, k, ds[0], ds[0] in running);
      assert ds == [ds[0]] + ds[1..];
    }
  }

  lemma FlattenTwo(a: seq<string>, b: seq<string>)
    ensures Flatten([a, b]) == a + b
  {
    assert [a, b][1..] == [b];
    assert [b][1..] == [];
    assert Flatten([b]) == b + Flatten([]);
  }

  lemma HeaderHolds(name: string)
    requires Clean(name)
    ensures name !in Flatten(DomainHeader) && name !in Flatten(VolumeHeader)
  {
    FlattenTwo(["Id", "Name", "State"], [Rule]);
    FlattenTwo(["Name", "Path"], [Rule]);
  }

  lemma HeaderWords()
    ensures LinesOfWords(DomainHeader) && LinesOfWords(VolumeHeader)
  {
    assert IsWord("Id") && IsWord("Name") && IsWord("State") && IsWord("Path") && IsWord(Rule);
  }

  lemma LinesOfWordsAppend(a: seq<seq<string>>, b: seq<seq<string>>)
    requires LinesOfWords(a) && LinesOfWords(b)
    ensures LinesOfWords(a + b)
  {
    forall i | 0 <= i < |a + b| ensures AllWords((a + b)[i]) {
      if i < |a| {
        assert (a + b)[i] == a[i];
      } else {
        assert (a + b)[i] == b[i - |a|];
      }
    }
  }

  /** With one-word domain names, `machine_exists` is exact for a clean name: the name is a
      token of `virsh list --all` iff the domain is defined. */
  lemma MachineExistsExact(st: State, name: string)
    requires Clean(name) && AllWords(st.defined)
    ensures HasToken(name, RenderAll(st)) <==> name in st.defined
  {
    var rows := AllRows(st.defined, st.running, 0);
    HeaderWords();
    AllRowsWords(st.defined, st.running, 0);
    LinesOfWordsAppend(DomainHeader, rows);
    TokensOfRender(DomainHeader + rows);
    FlattenAppend(DomainHeader, rows);
    HeaderHolds(name);
    InAllRows(name, st.defined, st.running, 0);
  }

  lemma {:induction false} VolumeRowsWords(vs: seq<string>)
    requires AllWords(vs)
    ensures LinesOfWords(VolumeRows(vs))
  {
    if vs != [] {
      assert IsWord(vs[0]);
      assert IsWord(VolumePath(vs[0])) by {
        assert NoSpace(PoolDir + "/");
        assert forall i :: 0 <= i < |vs[0]| ==> VolumePath(vs[0])[|PoolDir| + 1 + i] == vs[0][i];
      }
      assert AllWords(vs[1..]) by {
        forall i | 0 <= i < |vs[1..]| ensures IsWord(vs[1..][i]) {
          assert vs[1..][i] == vs[i + 1];
        }
      }
      VolumeRowsWords(vs[1..]);
    }
  }

  lemma {:induction false} InVolumeRows(name: string, vs: seq<string>)
    requires Clean(name)
    ensures name in Flatten(VolumeRows(vs)) <==> name in vs
  {
    if vs != [] {
      InVolumeRows(name, vs[1..]);
      assert VolumePath(vs[0])[|PoolDir|] == '/';
      assert name != VolumePath(vs[0]);
      assert vs == [vs[0]] + vs[1..];
    }
  }

  /** With one-word volume names, `volume_exists` is exact for a clean name: the name is a
      token of `virsh vol-list` iff the pool holds that volume. */
  lemma VolumeExistsExact(st: State, name: string)
    requires Clean(name) && AllWords(st.volumes)
    ensures HasToken(name, RenderVolumes(st)) <==> name in st.volumes
  {
    var rows := VolumeRows(st.volumes);
    HeaderWords();
    VolumeRowsWords(st.volumes);
    LinesOfWordsAppend(VolumeHeader, rows);
    TokensOfRender(VolumeHeader + rows);
    FlattenAppend(VolumeHeader, rows);
    HeaderHolds(name);
    InVolumeRows(name, st.volumes);
  }

  lemma {:induction false} RunningRowOf(name: string, ds: seq<string>, running: set<string>, k: nat)
    returns (i: nat)
    requires name in ds && name in running
    ensures i < |RunningRows(ds, running, k)| && name in RunningRows(ds, running, k)[i]
    decreases |ds|
  {
    if ds[0] == name {
      i := 0;
    } else if ds[0] in running {
      var j := RunningRowOf(name, ds[1..], running, k + 1);
      i := j + 1;
    } else {
      i := RunningRowOf(name, ds[1..], running, k);
    }
  }

  lemma {:induction false} RowOf(name: string, ds: seq<string>, running: set<string>, k: nat)
    returns (i: nat)
    requires name in ds
    ensures i < |AllRows(ds, running, k)| && name in AllRows(ds, running, k)[i]
    decreases |ds|
  {
    if ds[0] == name {
      i := 0;
    } else {
      var j := RowOf(name, ds[1..], running, k + 1);
      i := j + 1;
    }
  }

  /** The header words of `virsh vol-list` are tokens of every listing, so `volume_exists`
      answers yes for `Name` and `Path` even on an empty pool. */
  lemma VolumeHeaderListed(st: State)
    ensures HasToken("Name", RenderVolumes(st)) && HasToken("Path", RenderVolumes(st))
  {
    var lines := VolumeHeader + VolumeRows(st.volumes);
    assert lines[0] == ["Name", "Path"] && lines[1..] == [[Rule]] + VolumeRows(st.volumes);
    assert IsWord("Name") && IsWord("Path");
    TokensOfLine(lines[0], Render(lines[1..]));
  }

  /** Likewise the header words of `virsh list --all` are tokens of every listing, so
      `machine_exists` answers yes for `Id`, `Name` and `State` with no domain defined. */
  lemma DomainHeaderListed(st: State)
    ensures HasToken("Id", RenderAll(st)) && HasToken("Name", RenderAll(st)) && HasToken("State", RenderAll(st))
  {
    var lines := DomainHeader + AllRows(st.defined, st.running, 0);
    assert lines[0] == ["Id", "Name", "State"] && lines[1..] == [[Rule]] + AllRows(st.defined, st.running, 0);
    assert IsWord("Id") && IsWord("Name") && IsWord("State");
    TokensOfLine(lines[0], Render(lines[1..]));
  }

  /** `is_running` / `machine_is_running` never miss a running domain. */
  lemma RunningReported(st: State, name: string)
    requires name in st.defined && name in st.running
    ensures HasSubstring(name, RenderRunning(st))
  {
    var rows := RunningRows(st.defined, st.running, 0);
    var i := RunningRowOf(name, st.defined, st.running, 0);
    assert (DomainHeader + rows)[|DomainHeader| + i] == rows[i];
    SubstringOfRender(name, DomainHeader + rows, |DomainHeader| + i);
  }

  /** `domain_exists` never misses a defined domain. */
  lemma DefinedReported(st: State, name: string)
    requires name in st.defined
    ensures HasSubstring(name, RenderAll(st))
  {
    var rows := AllRows(st.defined, st.running, 0);
    var i := RowOf(name, st.defined, st.running, 0);
    assert (DomainHeader + rows)[|DomainHeader| + i] == rows[i];
    SubstringOfRender(name, DomainHeader + rows, |DomainHeader| + i);
  }

  /** But substring membership over-reports: any part of a running domain's name counts as
      running, whether or not a domain of that name exists. */
  lemma PartOfNameReportsRunning(st: State, part: string, name: string)
    requires name in st.defined && name in st.running && IsSubstring(part, name)
    ensures HasSubstring(part, RenderRunning(st))
  {
    RunningReported(st, name);
    SubstringTransitive(part, name, RenderRunning(st));
  }

  /** A concrete case: with only `web2` running, `web` reports running. */
  lemma RunningQuirkExample()
    ensures var st := State(["web2"], {"web2"}, map[], [], {}, {}, map[], {});
      "web" !in st.defined && HasSubstring("web", RenderRunning(st))
  {
    var st := State(["web2"], {"web2"}, map[], [], {}, {}, map[], {});
    assert IsPrefix("web", "web2");
    PartOfNameReportsRunning(st, "web", "web2");
  }

  /** Even an empty listing reports running for any part of its header, such as `at`. */
  lemma HeaderReportsRunning(st: State, part: string)
    requires IsSubstring(part, "State")
    ensures HasSubstring(part, RenderRunning(st))
  {
    var rows := RunningRows(st.defined, st.running, 0);
    assert "State" in (DomainHeader + rows)[0];
    SubstringOfRender("State", DomainHeader + rows, 0);
    SubstringTransitive(part, "State", RenderRunning(st));
  }
}
