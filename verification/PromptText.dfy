/**
 * What stands in the blocks of the user prompt (src/core/prompt.ts), said of the texts themselves: which header
 * opens a block, what of a file, a card or a signal is inside, and what sanitizing does to a value.
 */
module PromptText {
  import opened PromptFence
  import opened Text

  /******* Headers and contents *******/

  /** The headers of the blocks that stand once. */
  lemma HeadersTold(boundary: string)
    ensures RulesHeader(boundary) == "BEGIN_UNTRUSTED_" + boundary + " " + "kind=rules"
    ensures MemoryHeader(boundary) == "BEGIN_UNTRUSTED_" + boundary + " " + "kind=teamMemory"
    ensures SignalsHeader(boundary) == "BEGIN_UNTRUSTED_" + boundary + " " + "kind=analyzerSignals"
    ensures EndMarker(boundary) == "END_UNTRUSTED_" + boundary
  {
  }

  /** A file is shown as the redactor leaves it, if there is one to ask, and then with the count of what it took. */
  lemma ContentTold(file: ReviewFile, input: Input, boundary: string)
    ensures var shown := if input.redact then input.redactor(file.content) else (file.content, 0);
      && Redacted(file, input) == shown
      && ExpectedFile(file, input, boundary).content == Lines(Neutralize(shown.0, boundary))
  {
  }

  /** The header of a file's block names its path, its changed lines, its regions and the count, if there are any. */
  lemma FileHeaderTold(file: ReviewFile, input: Input, boundary: string)
    ensures
      var path := "file=" + ("\"" + SanitizeInline(file.path) + "\"");
      var lines := "changedLines=" + ("\"" + SanitizeInline(RangesText(file)) + "\"");
      var regions := "changedRegions=" + ("\"" + SanitizeInline(RegionsText(file)) + "\"");
      var count := "redactedSecrets=\"" + Decimal(Redacted(file, input).1) + "\"";
      FileHeader(file, input, boundary) ==
        "BEGIN_UNTRUSTED_" + boundary + " "
        + (path + " " + lines + (if file.regions == [] then "" else " " + regions)
           + if Redacted(file, input).1 == 0 then "" else " " + count)
  {
    FileAttributesJoined(file, input);
  }

  lemma FileAttributesJoined(file: ReviewFile, input: Input)
    ensures JoinWith(FileAttributes(file, input), " ") ==
      Attr("file=", file.path) + " " + Attr("changedLines=", RangesText(file))
      + (if file.regions == [] then "" else " " + Attr("changedRegions=", RegionsText(file)))
      + (if Redacted(file, input).1 == 0 then "" else " " + CountAttr(Redacted(file, input).1))
  {
    AttributesJoined(Attr("file=", file.path), Attr("changedLines=", RangesText(file)),
                     if file.regions == [] then [] else [Attr("changedRegions=", RegionsText(file))],
                     if Redacted(file, input).1 == 0 then [] else [CountAttr(Redacted(file, input).1)]);
  }

  lemma AttributesJoined(a: string, b: string, c: seq<string>, d: seq<string>)
    requires |c| <= 1 && |d| <= 1
    ensures JoinWith([a, b] + c + d, " ") ==
      a + " " + b + (if c == [] then "" else " " + c[0]) + (if d == [] then "" else " " + d[0])
  {
    TwoJoined(a, b);
    JoinedPerhaps([a, b], c);
    JoinedPerhaps([a, b] + c, d);
  }

  lemma JoinedPerhaps(parts: seq<string>, more: seq<string>)
    requires parts != [] && |more| <= 1
    ensures JoinWith(parts + more, " ") == JoinWith(parts, " ") + if more == [] then "" else " " + more[0]
  {
    if more == [] {
      assert parts + more == parts;
    } else {
      assert more == [more[0]];
      JoinedOneMore(parts, " ", more[0]);
    }
  }

  lemma TwoJoined(a: string, b: string)
    ensures JoinWith([a, b], " ") == a + " " + b
  {
    assert [a, b][1..] == [b];
  }

  /** One more range or region: its lines behind what was there. */
  lemma {:induction false} JoinedOneMore(parts: seq<string>, separator: string, part: string)
    requires parts != []
    ensures JoinWith(parts + [part], separator) == JoinWith(parts, separator) + separator + part
  {
    var more := parts + [part];
    if |parts| == 1 {
      assert more[1..] == [part];
    } else {
      JoinedOneMore(parts[1..], separator, part);
      assert more[1..] == parts[1..] + [part];
      assert parts[0] + separator + (JoinWith(parts[1..], separator) + separator + part)
        == parts[0] + separator + JoinWith(parts[1..], separator) + separator + part;
    }
  }

  lemma RangesTold(file: ReviewFile, spans: seq<Span>, span: Span)
    requires file.changedRanges == spans + [span]
    ensures RangesText(file) ==
      (if spans == [] then "" else RangesText(file.(changedRanges := spans)) + ", ")
      + (Decimal(span.startLine) + "-" + Decimal(span.endLine))
    ensures RangesText(file.(changedRanges := [])) == "whole file"
  {
    var all := file.changedRanges;
    var texts := seq(|spans|, i requires 0 <= i < |spans| => SpanText(spans[i]));
    assert seq(|all|, i requires 0 <= i < |all| => SpanText(all[i])) == texts + [SpanText(span)];
    if spans != [] {
      JoinedOneMore(texts, ", ", SpanText(span));
    } else {
      assert texts + [SpanText(span)] == [SpanText(span)];
    }
  }

  lemma RegionTold(region: Region)
    ensures RegionText(region) ==
      region.kind + " " + region.name + " ("
      + (Decimal(region.lines.startLine) + "-" + Decimal(region.lines.endLine)) + ")"
  {
  }

  lemma RegionsTold(file: ReviewFile, regions: seq<Region>, region: Region)
    requires file.regions == regions + [region]
    ensures RegionsText(file) ==
      (if regions == [] then "" else RegionsText(file.(regions := regions)) + "; ") + RegionText(region)
  {
    var all := file.regions;
    var texts := seq(|regions|, i requires 0 <= i < |regions| => RegionText(regions[i]));
    assert seq(|all|, i requires 0 <= i < |all| => RegionText(all[i])) == texts + [RegionText(region)];
    if regions != [] {
      JoinedOneMore(texts, "; ", RegionText(region));
    } else {
      assert texts + [RegionText(region)] == [RegionText(region)];
      assert "" + RegionText(region) == RegionText(region);
    }
  }

  lemma SignalTold(s: Signal)
    ensures SignalText(s) ==
      "[" + s.id + "] " + s.severity + " " + s.analyzer + "/" + s.ruleId + " " + s.file + ":"
      + (Decimal(s.lines.startLine) + "-" + Decimal(s.lines.endLine)) + " " + s.message
  {
  }

  /** Each card stands under its number. */
  lemma {:induction false} CardsTold(cards: seq<string>, boundary: string, i: nat)
    requires i < |cards|
    ensures |CardItems(cards, boundary)| == 2 * |cards|
    ensures CardItems(cards, boundary)[2 * i] == "card " + Decimal(i + 1) + ":"
    ensures CardItems(cards, boundary)[2 * i + 1] == Neutralize(cards[i], boundary)
  {
    var n := |cards| - 1;
    CardsAreCounted(cards[..n], boundary);
    if i < n {
      CardsTold(cards[..n], boundary, i);
    }
  }

  lemma {:induction false} CardsAreCounted(cards: seq<string>, boundary: string)
    ensures |CardItems(cards, boundary)| == 2 * |cards|
  {
    if cards != [] {
      CardsAreCounted(cards[..|cards| - 1], boundary);
    }
  }

  /******* Sanitizing *******/

  predicate Break(c: char) { c == '\r' || c == '\n' || c == '\t' }

  /** Text without breaks is kept ... */
  lemma {:induction false} PlainTextStays(text: string)
    requires forall c :: c in text ==> !Break(c)
    ensures Collapse(text, false) == text
  {
    if text != "" {
      PlainTextStays(text[1..]);
      assert text[0] in text && text == [text[0]] + text[1..];
    }
  }

  /** ... and a run of breaks between such texts is one space. */
  lemma {:induction false} BreaksTold(text: string, c: char, rest: string)
    requires forall c :: c in text ==> !Break(c)
    requires Break(c)
    ensures Collapse(text + [c] + rest, false) == text + " " + Collapse(rest, true)
  {
    if text == "" {
      assert (text + [c] + rest)[0] == c && (text + [c] + rest)[1..] == rest;
    } else {
      BreaksTold(text[1..], c, rest);
      BreakBehind(text[0], text[1..], c, rest);
      assert text[0] in text && text == [text[0]] + text[1..];
    }
  }

  lemma BreakBehind(first: char, text: string, c: char, rest: string)
    requires !Break(first)
    ensures Collapse([first] + text + [c] + rest, false) == [first] + Collapse(text + [c] + rest, false)
    ensures [first] + (text + " " + Collapse(rest, true)) == [first] + text + " " + Collapse(rest, true)
  {
    assert ([first] + text + [c] + rest)[1..] == text + [c] + rest;
  }

  lemma {:induction false} RunTold(run: string, rest: string)
    requires forall c :: c in run ==> Break(c)
    requires rest == "" || !Break(rest[0])
    ensures Collapse(run + rest, true) == Collapse(rest, false)
  {
    if run == "" {
      assert run + rest == rest;
    } else {
      assert run[0] in run;
      RunTold(run[1..], rest);
      assert (run + rest)[1..] == run[1..] + rest;
    }
  }

  /** Quotes are escaped, and nothing else. */
  lemma {:induction false} QuotesTold(text: string, rest: string)
    requires '"' !in text
    ensures EscapeQuotes(text) == text
    ensures EscapeQuotes(text + "\"" + rest) == text + "\\\"" + EscapeQuotes(rest)
  {
    if text == "" {
      assert (text + "\"" + rest)[0] == '"' && (text + "\"" + rest)[1..] == rest;
    } else {
      QuotesTold(text[1..], rest);
      QuoteBehind(text[0], text[1..], rest);
      assert text[0] in text;
      assert text == [text[0]] + text[1..];
    }
  }

  lemma QuoteBehind(c: char, text: string, rest: string)
    requires c != '"'
    ensures EscapeQuotes([c] + text) == [c] + EscapeQuotes(text)
    ensures EscapeQuotes([c] + text + "\"" + rest) == [c] + EscapeQuotes(text + "\"" + rest)
    ensures [c] + (text + "\\\"" + EscapeQuotes(rest)) == [c] + text + "\\\"" + EscapeQuotes(rest)
  {
    assert ([c] + text)[1..] == text;
    assert ([c] + text + "\"" + rest)[1..] == text + "\"" + rest;
  }

  /** White space goes at both ends, and only there. */
  lemma TrimTold(left: string, text: string, right: string)
    requires Blank(left) && Blank(right)
    requires text != "" ==> !IsSpace(text[0]) && !IsSpace(text[|text| - 1])
    ensures Trim(left + text + right) == text
  {
    TrimLeftTold(left, text + right);
    assert left + text + right == left + (text + right);
    if text == "" {
      assert text + right == right;
      TrimLeftTold(right, "");
      assert right + "" == right;
    } else {
      TrimRightTold(text, right);
    }
  }

  lemma {:induction false} TrimLeftTold(left: string, text: string)
    requires Blank(left)
    ensures text == "" || !IsSpace(text[0]) ==> TrimLeft(left + text) == text
    ensures text != "" && IsSpace(text[0]) ==> TrimLeft(left + text) == TrimLeft(text)
  {
    if left == "" {
      assert left + text == text;
    } else {
      assert left[0] in left;
      TrimLeftTold(left[1..], text);
      assert (left + text)[1..] == left[1..] + text;
    }
  }

  lemma {:induction false} TrimRightTold(text: string, right: string)
    requires Blank(right) && text != "" && !IsSpace(text[|text| - 1])
    ensures TrimRight(text + right) == text
  {
    if right == "" {
      assert text + right == text;
    } else {
      var n := |right| - 1;
      assert right[n] in right;
      TrimRightTold(text, right[..n]);
      assert (text + right)[..|text + right| - 1] == text + right[..n];
    }
  }

  /** In all: a value in one line, without quotes and without white space at its ends, stays as it is. */
  lemma PlainValueStays(value: string)
    requires forall c :: c in value ==> !Break(c) && c != '"'
    requires value != "" ==> !IsSpace(value[0]) && !IsSpace(value[|value| - 1])
    ensures SanitizeInline(value) == value
  {
    PlainTextStays(value);
    QuotesTold(value, "");
    TrimTold("", value, "");
    assert "" + value + "" == value;
  }
}
