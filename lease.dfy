/** The lease-line parsing of `get_ip_address` (the same code in libvirt-compose.py and
    virt_compose.py): the address of a domain read from `virsh net-dhcp-leases`. */
module Lease {
  import opened Text
  import opened Wrappers
  import opened Hypervisor
  import opened Listing

  /** Takes the second-to-last line, requires exactly seven whitespace-separated fields,
      takes the fifth and requires exactly one `/` in it; the address is the text before it. */
  function ParseLease(raw: string): (r: Option<string>)
    ensures r.Some? ==> '/' !in r.value
  {
    var lines := Lines(raw);
    if |lines| < 2 then None
    else
      var fields := Tokens(lines[|lines| - 2]);
      if |fields| != 7 then None
      else
        var parts := Split(fields[4], '/');
        SplitJoin(fields[4], '/');
        if |parts| != 2 then None else Some(parts[0])
  }

  /** One row of `virsh net-dhcp-leases`. */
  datatype LeaseRow = LeaseRow(
    expiryDate: string, expiryTime: string, mac: string, protocol: string,
    address: string, prefix: string, hostname: string, clientId: string)

  function LeaseWords(r: LeaseRow): seq<string> {
    [r.expiryDate, r.expiryTime, r.mac, r.protocol, r.address + "/" + r.prefix, r.hostname, r.clientId]
  }

  function LeaseRows(rows: seq<LeaseRow>): (lines: seq<seq<string>>)
    ensures |lines| == |rows| && forall i :: 0 <= i < |rows| ==> lines[i] == LeaseWords(rows[i])
  {
    if rows == [] then [] else [LeaseWords(rows[0])] + LeaseRows(rows[1..])
  }

  const LeaseHeader: seq<seq<string>> :=
    [["Expiry", "Time", "MAC", "address", "Protocol", "IP", "address", "Hostname", "Client", "ID", "or", "DUID"],
     [Rule]]

  /** The printed table: header, rule, one line per lease, then a blank line. */
  function LeaseTable(rows: seq<LeaseRow>): string {
    Render(LeaseHeader + LeaseRows(rows)) + "\n"
  }

  /** A line of a table without its newline. */
  function Body(ws: seq<string>): string {
    if ws == [] then [] else " " + ws[0] + Body(ws[1..])
  }

  function Bodies(lines: seq<seq<string>>): (bs: seq<string>)
    ensures |bs| == |lines| && forall i :: 0 <= i < |lines| ==> bs[i] == Body(lines[i])
  {
    if lines == [] then [] else [Body(lines[0])] + Bodies(lines[1..])
  }

  lemma {:induction false} LineIsBody(ws: seq<string>)
    ensures Line(ws) == Body(ws) + ['\n']
  {
    if ws != [] {
      LineIsBody(ws[1..]);
    }
  }

  lemma {:induction false} BodyOneLine(ws: seq<string>)
    requires AllWords(ws)
    ensures NoBreak(Body(ws))
  {
    if ws != [] {
      assert AllWords(ws[1..]) by {
        forall i | 0 <= i < |ws[1..]| ensures IsWord(ws[1..][i]) {
          assert ws[1..][i] == ws[i + 1];
        }
      }
      BodyOneLine(ws[1..]);
      assert IsWord(ws[0]);
      NoSpaceNoBreak(ws[0]);
      var b := Body(ws);
      assert b == " " + ws[0] + Body(ws[1..]);
      forall i | 0 <= i < |b| ensures !IsLineBreak(b[i]) {
        if 1 <= i < 1 + |ws[0]| {
          assert b[i] == ws[0][i - 1];
        } else if i >= 1 + |ws[0]| {
          assert b[i] == Body(ws[1..])[i - 1 - |ws[0]|];
        }
      }
    }
  }

  lemma BodyTokens(ws: seq<string>)
    requires AllWords(ws)
    ensures Tokens(Body(ws)) == ws
  {
    LineIsBody(ws);
    TokensOfLine(ws, []);
    assert Line(ws) + [] == Line(ws);
    assert Body(ws) + ['\n'] + [] == Line(ws);
    TokensSplitAtSpace(Body(ws), '\n', []);
    assert Tokens([]) == [];
    assert Tokens(Body(ws)) + [] == Tokens(Body(ws));
    assert ws + [] == ws;
  }

  /** The first line of a rendered table, split off. */
  lemma RenderFirst(lines: seq<seq<string>>, rest: string)
    requires lines != [] && AllWords(lines[0])
    ensures Lines(Render(lines) + rest) == [Body(lines[0])] + Lines(Render(lines[1..]) + rest)
  {
    var b := Body(lines[0]);
    var tail := Render(lines[1..]) + rest;
    LineIsBody(lines[0]);
    BodyOneLine(lines[0]);
    assert Render(lines) + rest == b + "\n" + tail;
    LinesAtNewline(b, tail);
  }

  lemma LinesOfWordsTail(lines: seq<seq<string>>)
    requires lines != [] && LinesOfWords(lines)
    ensures AllWords(lines[0]) && LinesOfWords(lines[1..])
  {
    forall i | 0 <= i < |lines[1..]| ensures AllWords(lines[1..][i]) {
      assert lines[1..][i] == lines[i + 1];
    }
  }

  lemma ConsAppend(b: string, bs: seq<string>, ls: seq<string>)
    ensures [b] + (bs + ls) == ([b] + bs) + ls
  {
  }

  lemma {:induction false} LinesRender(lines: seq<seq<string>>, rest: string)
    requires LinesOfWords(lines)
    ensures Lines(Render(lines) + rest) == Bodies(lines) + Lines(rest)
  {
    if lines != [] {
      var tail := lines[1..];
      LinesOfWordsTail(lines);
      LinesRender(tail, rest);
      RenderFirst(lines, rest);
      ConsAppend(Body(lines[0]), Bodies(tail), Lines(rest));
    } else {
      assert Render(lines) + rest == rest;
    }
  }

  /** What the parser makes of any table printed with a final blank line: it reads the last
      line's words. */
  lemma LinesOfNewline()
    ensures Lines("\n") == [[]]
  {
    assert LineOf("\n") == [];
    assert "\n"[1..] == [];
  }

  /** The second-to-last line of a table printed with a final blank line is its last row. */
  lemma TableLastRow(lines: seq<seq<string>>)
    requires lines != [] && LinesOfWords(lines)
    ensures var ls := Lines(Render(lines) + "\n");
      |ls| == |lines| + 1 && ls[|ls| - 2] == Body(lines[|lines| - 1])
  {
    LinesRender(lines, "\n");
    LinesOfNewline();
    assert (Bodies(lines) + [[]])[|lines| - 1] == Body(lines[|lines| - 1]);
  }

  lemma LeaseOfTable(lines: seq<seq<string>>)
    requires lines != [] && LinesOfWords(lines)
    ensures var last := lines[|lines| - 1];
      ParseLease(Render(lines) + "\n") ==
        if |last| == 7 && |Split(last[4], '/')| == 2 then Some(Split(last[4], '/')[0]) else None
  {
    var last := lines[|lines| - 1];
    TableLastRow(lines);
    assert AllWords(last);
    BodyTokens(last);
  }

  predicate WellFormedLease(r: LeaseRow) {
    IsWord(r.expiryDate) && IsWord(r.expiryTime) && IsWord(r.mac) && IsWord(r.protocol)
    && IsWord(r.address) && IsWord(r.prefix) && IsWord(r.hostname) && IsWord(r.clientId)
    && '/' !in r.address && '/' !in r.prefix
  }

  lemma LeaseWordsWords(r: LeaseRow)
    requires WellFormedLease(r)
    ensures AllWords(LeaseWords(r))
  {
    var a := r.address + "/" + r.prefix;
    assert a == r.address + ['/'] + r.prefix;
    assert NoSpace(a) by {
      forall i | 0 <= i < |a| ensures !IsSpace(a[i]) {
        if i < |r.address| {
          assert a[i] == r.address[i];
        } else if i > |r.address| {
          assert a[i] == r.prefix[i - |r.address| - 1];
        }
      }
    }
  }

  lemma TitleWords()
    ensures AllWords(LeaseHeader[0])
  {
    assert IsWord("Expiry") && IsWord("Time") && IsWord("MAC") && IsWord("address");
    assert IsWord("Protocol") && IsWord("IP") && IsWord("Hostname") && IsWord("Client");
    assert IsWord("ID") && IsWord("or") && IsWord("DUID");
  }

  lemma RuleWord()
    ensures IsWord(Rule)
  {
    assert forall i :: 0 <= i < |Rule| ==> Rule[i] == '-';
  }

  lemma HeaderLines()
    ensures LinesOfWords(LeaseHeader)
  {
    TitleWords();
    RuleWord();
    assert AllWords(LeaseHeader[1]) by {
      assert LeaseHeader[1] == [Rule];
    }
  }

  /** Each line of a header of words, of well-formed leases and of further lines of words is
      words. */
  lemma TableLine(head: seq<seq<string>>, rows: seq<LeaseRow>, extra: seq<seq<string>>, i: nat)
    requires LinesOfWords(head) && LinesOfWords(extra)
    requires forall i :: 0 <= i < |rows| ==> WellFormedLease(rows[i])
    requires i < |head| + |rows| + |extra|
    ensures AllWords((head + LeaseRows(rows) + extra)[i])
  {
    var table := head + LeaseRows(rows);
    if i < |head| {
      assert (table + extra)[i] == head[i];
    } else if i < |table| {
      assert (table + extra)[i] == LeaseRows(rows)[i - |head|] == LeaseWords(rows[i - |head|]);
      LeaseWordsWords(rows[i - |head|]);
    } else {
      assert (table + extra)[i] == extra[i - |table|];
    }
  }

  lemma TableOfWords(head: seq<seq<string>>, rows: seq<LeaseRow>, extra: seq<seq<string>>)
    requires LinesOfWords(head) && LinesOfWords(extra)
    requires forall i :: 0 <= i < |rows| ==> WellFormedLease(rows[i])
    ensures LinesOfWords(head + LeaseRows(rows) + extra)
  {
    forall i | 0 <= i < |head + LeaseRows(rows) + extra|
      ensures AllWords((head + LeaseRows(rows) + extra)[i])
    {
      TableLine(head, rows, extra, i);
    }
  }

  /** Below any header of words, the parser returns the address of the last well-formed
      lease. */
  lemma LastLeaseRead(head: seq<seq<string>>, rows: seq<LeaseRow>)
    requires LinesOfWords(head)
    requires rows != [] && forall i :: 0 <= i < |rows| ==> WellFormedLease(rows[i])
    ensures ParseLease(Render(head + LeaseRows(rows)) + "\n") == Some(rows[|rows| - 1].address)
  {
    var lines := head + LeaseRows(rows);
    TableOfWords(head, rows, []);
    assert lines + [] == lines;
    LeaseOfTable(lines);
    var last := rows[|rows| - 1];
    assert lines[|lines| - 1] == LeaseWords(last);
    assert last.address + "/" + last.prefix == last.address + ['/'] + last.prefix;
    SplitAtFirst(last.address, '/', last.prefix);
    SplitWithout(last.prefix, '/');
  }

  /** Below any header of words and well-formed leases, the parser reads a last line `bad`
      of words as it reads any line. */
  lemma LastLineRead(head: seq<seq<string>>, rows: seq<LeaseRow>, bad: seq<string>)
    requires LinesOfWords(head) && AllWords(bad)
    requires forall i :: 0 <= i < |rows| ==> WellFormedLease(rows[i])
    ensures ParseLease(Render(head + LeaseRows(rows) + [bad]) + "\n") ==
      if |bad| == 7 && |Split(bad[4], '/')| == 2 then Some(Split(bad[4], '/')[0]) else None
  {
    assert LinesOfWords([bad]) by {
      assert [bad][0] == bad;
    }
    TableOfWords(head, rows, [bad]);
    LeaseOfTable(head + LeaseRows(rows) + [bad]);
  }

  /** For a table of well-formed leases, the parser returns the address of the last lease. */
  lemma LeaseRoundTrip(rows: seq<LeaseRow>)
    requires rows != [] && forall i :: 0 <= i < |rows| ==> WellFormedLease(rows[i])
    ensures ParseLease(LeaseTable(rows)) == Some(rows[|rows| - 1].address)
  {
    HeaderLines();
    LastLeaseRead(LeaseHeader, rows);
  }

  /** Without any lease the last line is the rule, and the parser fails. */
  lemma NoLeaseFails()
    ensures ParseLease(LeaseTable([])) == None
  {
    HeaderLines();
    assert LeaseHeader + LeaseRows([]) == LeaseHeader;
    LeaseOfTable(LeaseHeader);
  }

  /** Output of a single line, with no line break in it, has no second-to-last line:
      `splitlines()[-2]` raises, and the parser fails. */
  lemma OneLineFails(raw: string)
    requires NoBreak(raw)
    ensures ParseLease(raw) == None
  {
    if raw != [] {
      LinesOfLine(raw);
    }
  }

  /** A last line whose address carries no prefix length (no `/`) is rejected. */
  lemma NoPrefixFails(rows: seq<LeaseRow>, bad: seq<string>)
    requires forall i :: 0 <= i < |rows| ==> WellFormedLease(rows[i])
    requires |bad| == 7 && AllWords(bad) && '/' !in bad[4]
    ensures ParseLease(Render(LeaseHeader + LeaseRows(rows) + [bad]) + "\n") == None
  {
    HeaderLines();
    LastLineRead(LeaseHeader, rows, bad);
    SplitWithout(bad[4], '/');
  }

  /** A last line with other than seven fields is rejected. */
  lemma FieldCountFails(rows: seq<LeaseRow>, bad: seq<string>)
    requires forall i :: 0 <= i < |rows| ==> WellFormedLease(rows[i])
    requires |bad| != 7 && AllWords(bad)
    ensures ParseLease(Render(LeaseHeader + LeaseRows(rows) + [bad]) + "\n") == None
  {
    HeaderLines();
    LastLineRead(LeaseHeader, rows, bad);
  }
}
