/** The document summarizer (`DocumentSummarizer` in src/models/summarization/document_summarizer.py):
    a greedy two-level chunk packer and a depth-bounded recursive summary reduction.

    The LLM summary chain (`summary_prompt | llm`) is an oracle `string -> Option<string>`:
    it takes the content placed in the prompt and yields the model's text, or `None` when
    the call raises. */
module Summarization {
  import opened Wrappers
  import opened Text
  import opened Documents

  const ParagraphBreak := "\n\n"
  /** The chunk size `summarize_text` passes to the packer (the default of `_chunk_text`). */
  const DefaultChunkSize := 4000
  const DefaultMaxRecursion := 3
  const DefaultMaxLength := 2000
  /** Returned when the whole summarization fails. */
  const SummaryFailed := "摘要生成失败"
  /** Stands in for the summary of one chunk whose call failed. */
  const ChunkSummaryFailed := "[此部分摘要生成失败]"
  /** Returned by `summarize_documents` when it catches an exception. */
  const DocumentsSummaryFailed := "多文档摘要生成失败"
  /** Appended to a summary cut to the maximum length. */
  const Ellipsis := "..."

  // ---------------------------------------------------------------------------------------
  // Sentence splitting

  /** The full-width sentence terminators after which an oversized paragraph is split. */
  predicate IsTerminator(c: char)
  {
    c == '。' || c == '！' || c == '？'
  }

  /** The three chained `replace` calls: a newline after every full-width terminator.
      (The replacement text adds only newlines, so the three passes act as one pass over
      the characters.) */
  function MarkSentenceEnds(p: string): string
    decreases |p|
  {
    if p == [] then []
    else (if IsTerminator(p[0]) then [p[0], '\n'] else [p[0]]) + MarkSentenceEnds(p[1..])
  }

  /** The sentences of an oversized paragraph: the marked text split on every newline,
      the inserted ones and any that were already in the paragraph. */
  function Sentences(p: string): seq<string>
  {
    Split(MarkSentenceEnds(p), "\n")
  }

  /** Every full-width terminator in `m` is immediately followed by a newline. */
  ghost predicate TerminatorsEndLines(m: string)
  {
    forall i :: 0 <= i < |m| && IsTerminator(m[i]) ==> i + 1 < |m| && m[i + 1] == '\n'
  }

  lemma {:induction false} MarkedTerminatorsAreFollowedByNewline(p: string)
    ensures TerminatorsEndLines(MarkSentenceEnds(p))
    decreases |p|
  {
    if p != [] {
      MarkedTerminatorsAreFollowedByNewline(p[1..]);
      var head := if IsTerminator(p[0]) then [p[0], '\n'] else [p[0]];
      var rest := MarkSentenceEnds(p[1..]);
      var m := head + rest;
      forall i | 0 <= i < |m| && IsTerminator(m[i]) ensures i + 1 < |m| && m[i + 1] == '\n' {
        if i >= |head| {
          assert m[i] == rest[i - |head|];
          assert IsTerminator(rest[i - |head|]);
          assert i + 1 - |head| < |rest|;
          assert m[i + 1] == rest[i + 1 - |head|];
        }
      }
    }
  }

  lemma {:induction false} UnmarkedParagraph(p: string)
    requires forall i :: 0 <= i < |p| ==> !IsTerminator(p[i])
    ensures MarkSentenceEnds(p) == p
    decreases |p|
  {
    if p != [] {
      UnmarkedParagraph(p[1..]);
      assert [p[0]] + p[1..] == p;
    }
  }

  /** An oversized paragraph breaks only after a full-width terminator or at a newline it
      already had: no sentence holds a newline, a terminator can only end a sentence, and
      joining the sentences with newlines gives back the marked paragraph. */
  lemma SentenceBoundaries(p: string)
    ensures var ss := Sentences(p);
      && Join(ss, "\n") == MarkSentenceEnds(p)
      && (forall k :: 0 <= k < |ss| ==> '\n' !in ss[k])
      && (forall k, j :: 0 <= k < |ss| && 0 <= j < |ss[k]| - 1 ==> !IsTerminator(ss[k][j]))
  {
    var m := MarkSentenceEnds(p);
    JoinSplit(m, "\n");
    SplitPiecesAvoidSeparator(m, '\n');
    MarkedTerminatorsAreFollowedByNewline(p);
    assert TerminatorsEndLines(m);
    SplitAfterMarker(m, '\n', '。');
    SplitAfterMarker(m, '\n', '！');
    SplitAfterMarker(m, '\n', '？');
  }

  /** ASCII `.`, `!` and `?` are not split points: a paragraph with no full-width terminator
      and no newline is one sentence. */
  lemma AsciiPunctuationDoesNotSplit(p: string)
    requires forall i :: 0 <= i < |p| ==> !IsTerminator(p[i])
    requires '\n' !in p
    ensures Sentences(p) == [p]
  {
    UnmarkedParagraph(p);
    SplitWithoutSeparator(p, '\n');
  }

  // ---------------------------------------------------------------------------------------
  // The greedy packer, as a fold over paragraphs and sentences

  /** The packer's two accumulators: the finished `chunks` and the `current_chunk`. */
  datatype Packing = Packing(chunks: seq<string>, current: string)

  /** The chunks with the current chunk appended when it is not empty (`if current_chunk:
      chunks.append(current_chunk)`). */
  function Flush(st: Packing): seq<string>
  {
    if st.current != "" then st.chunks + [st.current] else st.chunks
  }

  /** `[s[i:i+size] for i in range(0, len(s), size)]`: the hard cut of an oversized sentence. */
  function Slices(s: string, size: nat): seq<string>
    requires size >= 1
    decreases |s|
  {
    if s == [] then []
    else if |s| <= size then [s]
    else [s[..size]] + Slices(s[size..], size)
  }

  /** One sentence of an oversized paragraph: appended to the current chunk with a space when
      it fits, otherwise the current chunk is flushed and the sentence starts the next one,
      or is cut into slices when it is itself too long. */
  function SentenceStep(st: Packing, sentence: string, maxChunkSize: int): Packing
    requires maxChunkSize >= 1
  {
    if |st.current| + |sentence| + 1 <= maxChunkSize then
      Packing(st.chunks, if st.current != "" then st.current + " " + sentence else sentence)
    else if |sentence| > maxChunkSize then
      Packing(Flush(st) + Slices(sentence, maxChunkSize), "")
    else
      Packing(Flush(st), sentence)
  }

  function PackSentences(st: Packing, sentences: seq<string>, maxChunkSize: int): Packing
    requires maxChunkSize >= 1
    decreases |sentences|
  {
    if sentences == [] then st
    else
      SentenceStep(PackSentences(st, sentences[..|sentences| - 1], maxChunkSize),
                   sentences[|sentences| - 1], maxChunkSize)
  }

  /** One paragraph: appended to the current chunk after a blank line when it fits,
      otherwise the current chunk is flushed and the paragraph starts the next one, or is
      packed sentence by sentence when it is itself too long. */
  function ParagraphStep(st: Packing, para: string, maxChunkSize: int): Packing
    requires maxChunkSize >= 1
  {
    if |st.current| + |para| + 2 <= maxChunkSize then
      Packing(st.chunks, if st.current != "" then st.current + ParagraphBreak + para else para)
    else if |para| > maxChunkSize then
      PackSentences(Packing(Flush(st), ""), Sentences(para), maxChunkSize)
    else
      Packing(Flush(st), para)
  }

  function PackParagraphs(st: Packing, paras: seq<string>, maxChunkSize: int): Packing
    requires maxChunkSize >= 1
    decreases |paras|
  {
    if paras == [] then st
    else
      ParagraphStep(PackParagraphs(st, paras[..|paras| - 1], maxChunkSize),
                    paras[|paras| - 1], maxChunkSize)
  }

  /** The chunks `_chunk_text(text, max_chunk_size)` returns. */
  function Chunks(text: string, maxChunkSize: int): seq<string>
    requires maxChunkSize >= 1
  {
    Flush(PackParagraphs(Packing([], ""), Split(text, ParagraphBreak), maxChunkSize))
  }

  /** `_chunk_text`: split on blank lines and pack paragraphs greedily, falling back to
      sentences and then to fixed-size slices. */
  method ChunkText(text: string, maxChunkSize: int) returns (chunks: seq<string>)
    requires maxChunkSize >= 1
    ensures chunks == Chunks(text, maxChunkSize)
  {
    var paragraphs := Split(text, ParagraphBreak);
    chunks := [];
    var current := "";
    var p := 0;
    while p < |paragraphs|
      invariant 0 <= p <= |paragraphs|
      invariant Packing(chunks, current) == PackParagraphs(Packing([], ""), paragraphs[..p], maxChunkSize)
    {
      var para := paragraphs[p];
      assert paragraphs[..p + 1][..p] == paragraphs[..p];
      if |current| + |para| + 2 <= maxChunkSize {
        if current != "" {
          current := current + ParagraphBreak;
        }
        current := current + para;
      } else {
        if current != "" {
          chunks := chunks + [current];
        }
        if |para| > maxChunkSize {
          chunks, current := PackOversizedParagraph(chunks, para, maxChunkSize);
        } else {
          current := para;
        }
      }
      p := p + 1;
    }
    assert paragraphs[..|paragraphs|] == paragraphs;
    if current != "" {
      chunks := chunks + [current];
    }
  }

  /** The sentence loop of `_chunk_text` for a paragraph longer than the chunk size, starting
      from an empty current chunk. */
  method PackOversizedParagraph(chunks0: seq<string>, para: string, maxChunkSize: int)
    returns (chunks: seq<string>, current: string)
    requires maxChunkSize >= 1
    ensures Packing(chunks, current) == PackSentences(Packing(chunks0, ""), Sentences(para), maxChunkSize)
  {
    var sentences := Split(MarkSentenceEnds(para), "\n");
    chunks, current := chunks0, "";
    var q := 0;
    while q < |sentences|
      invariant 0 <= q <= |sentences|
      invariant Packing(chunks, current) == PackSentences(Packing(chunks0, ""), sentences[..q], maxChunkSize)
    {
      var sentence := sentences[q];
      assert sentences[..q + 1][..q] == sentences[..q];
      if |current| + |sentence| + 1 <= maxChunkSize {
        if current != "" {
          current := current + " ";
        }
        current := current + sentence;
      } else {
        if current != "" {
          chunks := chunks + [current];
        }
        if |sentence| > maxChunkSize {
          chunks := CutSentence(chunks, sentence, maxChunkSize);
          current := "";
        } else {
          current := sentence;
        }
      }
      q := q + 1;
    }
    assert sentences[..|sentences|] == sentences;
  }

  /** The slice loop of `_chunk_text`: `range(0, len(sentence), max_chunk_size)`. */
  method CutSentence(chunks0: seq<string>, sentence: string, maxChunkSize: int) returns (chunks: seq<string>)
    requires maxChunkSize >= 1
    ensures chunks == chunks0 + Slices(sentence, maxChunkSize)
  {
    chunks := chunks0;
    var i := 0;
    while i < |sentence|
      invariant 0 <= i <= |sentence|
      invariant chunks + Slices(sentence[i..], maxChunkSize) == chunks0 + Slices(sentence, maxChunkSize)
    {
      // the slice end is clamped as Python clamps it; i then steps by maxChunkSize
      var end := if i + maxChunkSize < |sentence| then i + maxChunkSize else |sentence|;
      ghost var rest := sentence[i..];
      assert rest != [];
      if end == |sentence| {
        assert sentence[end..] == [];
        assert rest == sentence[i..end];
      } else {
        assert rest[..maxChunkSize] == sentence[i..end];
        assert rest[maxChunkSize..] == sentence[end..];
      }
      assert Slices(rest, maxChunkSize) == [sentence[i..end]] + Slices(sentence[end..], maxChunkSize);
      chunks := chunks + [sentence[i..end]];
      i := end;
    }
  }

  // ---------------------------------------------------------------------------------------
  // Properties of the packer

  /** Every finished chunk is non-empty and at most `maxChunkSize` long, and so is the
      current chunk, apart from being possibly empty. */
  ghost predicate Bounded(st: Packing, maxChunkSize: int)
  {
    && (forall c :: c in st.chunks ==> 0 < |c| <= maxChunkSize)
    && |st.current| <= maxChunkSize
  }

  /** The hard cut: non-empty slices of at most `size`, all but the last exactly `size`,
      which concatenate back to the sentence in order. */
  lemma {:induction false} SlicesCutInOrder(s: string, size: nat)
    requires size >= 1
    ensures var sl := Slices(s, size);
      && (forall k :: 0 <= k < |sl| ==> 0 < |sl[k]| <= size)
      && (forall k :: 0 <= k < |sl| - 1 ==> |sl[k]| == size)
      && Join(sl, "") == s
    decreases |s|
  {
    if |s| > size {
      SlicesCutInOrder(s[size..], size);
      var rest := Slices(s[size..], size);
      var sl := [s[..size]] + rest;
      assert sl[1..] == rest;
      forall k | 0 <= k < |sl| ensures 0 < |sl[k]| <= size {
        if k > 0 { assert sl[k] == rest[k - 1]; }
      }
      forall k | 0 <= k < |sl| - 1 ensures |sl[k]| == size {
        if k > 0 { assert sl[k] == rest[k - 1]; }
      }
      assert s == s[..size] + s[size..];
    }
  }

  lemma SentenceStepBounded(st: Packing, sentence: string, maxChunkSize: int)
    requires maxChunkSize >= 1 && Bounded(st, maxChunkSize)
    ensures Bounded(SentenceStep(st, sentence, maxChunkSize), maxChunkSize)
  {
    if |st.current| + |sentence| + 1 > maxChunkSize && |sentence| > maxChunkSize {
      SlicesCutInOrder(sentence, maxChunkSize);
      var sl := Slices(sentence, maxChunkSize);
      forall c | c in Flush(st) + sl ensures 0 < |c| <= maxChunkSize {
        if c !in Flush(st) {
          var k :| 0 <= k < |sl| && sl[k] == c;
        }
      }
    }
  }

  lemma {:induction false} PackSentencesBounded(st: Packing, sentences: seq<string>, maxChunkSize: int)
    requires maxChunkSize >= 1 && Bounded(st, maxChunkSize)
    ensures Bounded(PackSentences(st, sentences, maxChunkSize), maxChunkSize)
    decreases |sentences|
  {
    if sentences != [] {
      var init := sentences[..|sentences| - 1];
      PackSentencesBounded(st, init, maxChunkSize);
      SentenceStepBounded(PackSentences(st, init, maxChunkSize), sentences[|sentences| - 1], maxChunkSize);
    }
  }

  lemma ParagraphStepBounded(st: Packing, para: string, maxChunkSize: int)
    requires maxChunkSize >= 1 && Bounded(st, maxChunkSize)
    ensures Bounded(ParagraphStep(st, para, maxChunkSize), maxChunkSize)
  {
    if |st.current| + |para| + 2 > maxChunkSize && |para| > maxChunkSize {
      PackSentencesBounded(Packing(Flush(st), ""), Sentences(para), maxChunkSize);
    }
  }

  lemma {:induction false} PackParagraphsBounded(st: Packing, paras: seq<string>, maxChunkSize: int)
    requires maxChunkSize >= 1 && Bounded(st, maxChunkSize)
    ensures Bounded(PackParagraphs(st, paras, maxChunkSize), maxChunkSize)
    decreases |paras|
  {
    if paras != [] {
      var init := paras[..|paras| - 1];
      PackParagraphsBounded(st, init, maxChunkSize);
      ParagraphStepBounded(PackParagraphs(st, init, maxChunkSize), paras[|paras| - 1], maxChunkSize);
    }
  }

  /** Every chunk `_chunk_text` returns is non-empty and at most `max_chunk_size` long. */
  lemma ChunksAreBounded(text: string, maxChunkSize: int)
    requires maxChunkSize >= 1
    ensures forall c :: c in Chunks(text, maxChunkSize) ==> 0 < |c| <= maxChunkSize
  {
    PackParagraphsBounded(Packing([], ""), Split(text, ParagraphBreak), maxChunkSize);
  }

  /** The empty text has no chunks: its single empty paragraph never becomes one. */
  lemma EmptyTextHasNoChunks(maxChunkSize: int)
    requires maxChunkSize >= 1
    ensures Chunks("", maxChunkSize) == []
  {
    assert Split("", ParagraphBreak) == [""];
    assert [""][..0] == [];
  }

  /** Every paragraph is non-empty and fits in a chunk on its own. */
  ghost predicate ParagraphsFit(paras: seq<string>, maxChunkSize: int)
  {
    forall i :: 0 <= i < |paras| ==> 0 < |paras[i]| <= maxChunkSize
  }

  lemma {:induction false} PackFittingParagraphs(paras: seq<string>, maxChunkSize: int)
    requires maxChunkSize >= 1 && |paras| >= 1 && ParagraphsFit(paras, maxChunkSize)
    ensures var st := PackParagraphs(Packing([], ""), paras, maxChunkSize);
      st.current != "" && Join(st.chunks + [st.current], ParagraphBreak) == Join(paras, ParagraphBreak)
    decreases |paras|
  {
    var n := |paras|;
    var x := paras[n - 1];
    if n == 1 {
      assert paras[..0] == [];
    } else {
      var init := paras[..n - 1];
      assert ParagraphsFit(init, maxChunkSize) by {
        forall i | 0 <= i < |init| ensures 0 < |init[i]| <= maxChunkSize {
          assert init[i] == paras[i];
        }
      }
      PackFittingParagraphs(init, maxChunkSize);
      var st := PackParagraphs(Packing([], ""), init, maxChunkSize);
      assert PackParagraphs(Packing([], ""), paras, maxChunkSize) == ParagraphStep(st, x, maxChunkSize);
      FittingParagraphStep(st, x, maxChunkSize);
      JoinSnoc(init, x, ParagraphBreak);
      assert init + [x] == paras;
    }
  }

  /** One fitting paragraph after a non-empty current chunk keeps the joined text growing
      by a blank line and the paragraph. */
  lemma FittingParagraphStep(st: Packing, x: string, maxChunkSize: int)
    requires maxChunkSize >= 1 && st.current != "" && 0 < |x| <= maxChunkSize
    ensures var next := ParagraphStep(st, x, maxChunkSize);
      next.current != "" &&
      Join(next.chunks + [next.current], ParagraphBreak) ==
      Join(st.chunks + [st.current], ParagraphBreak) + ParagraphBreak + x
  {
    if |st.current| + |x| + 2 <= maxChunkSize {
      var merged := st.current + ParagraphBreak + x;
      if st.chunks == [] {
        assert [st.current] + [x] == [st.current, x];
        assert [st.current, x][1..] == [x];
      } else {
        JoinSnoc(st.chunks, st.current, ParagraphBreak);
        JoinSnoc(st.chunks, merged, ParagraphBreak);
      }
    } else {
      JoinSnoc(st.chunks + [st.current], x, ParagraphBreak);
    }
  }

  /** Every sentence is non-empty and fits in a chunk on its own. */
  ghost predicate SentencesFit(sentences: seq<string>, maxChunkSize: int)
  {
    forall i :: 0 <= i < |sentences| ==> 0 < |sentences[i]| <= maxChunkSize
  }

  /** Sentence round trip: sentences that each fit are packed, in order, into the chunks after
      the ones already finished, and re-joining those chunks with single spaces gives back the
      sentences joined with single spaces. */
  lemma {:induction false} PackFittingSentences(done: seq<string>, sentences: seq<string>, maxChunkSize: int)
    requires maxChunkSize >= 1 && |sentences| >= 1 && SentencesFit(sentences, maxChunkSize)
    ensures var st := PackSentences(Packing(done, ""), sentences, maxChunkSize);
      && |done| <= |st.chunks| && st.chunks[..|done|] == done && st.current != ""
      && Join(st.chunks[|done|..] + [st.current], " ") == Join(sentences, " ")
    decreases |sentences|
  {
    var n := |sentences|;
    var x := sentences[n - 1];
    if n == 1 {
      assert sentences[..0] == [];
      assert done[|done|..] == [];
    } else {
      var init := sentences[..n - 1];
      assert SentencesFit(init, maxChunkSize) by {
        forall i | 0 <= i < |init| ensures 0 < |init[i]| <= maxChunkSize {
          assert init[i] == sentences[i];
        }
      }
      PackFittingSentences(done, init, maxChunkSize);
      var st := PackSentences(Packing(done, ""), init, maxChunkSize);
      assert PackSentences(Packing(done, ""), sentences, maxChunkSize) == SentenceStep(st, x, maxChunkSize);
      FittingSentenceStep(done, st, x, maxChunkSize);
      JoinSnoc(init, x, " ");
      assert init + [x] == sentences;
    }
  }

  /** One fitting sentence after a non-empty current chunk keeps the finished prefix and
      grows the re-joined text by a space and the sentence. */
  lemma FittingSentenceStep(done: seq<string>, st: Packing, x: string, maxChunkSize: int)
    requires maxChunkSize >= 1 && st.current != "" && 0 < |x| <= maxChunkSize
    requires |done| <= |st.chunks| && st.chunks[..|done|] == done
    ensures var next := SentenceStep(st, x, maxChunkSize);
      && |done| <= |next.chunks| && next.chunks[..|done|] == done && next.current != ""
      && Join(next.chunks[|done|..] + [next.current], " ") ==
         Join(st.chunks[|done|..] + [st.current], " ") + " " + x
  {
    var rest := st.chunks[|done|..];
    if |st.current| + |x| + 1 <= maxChunkSize {
      var merged := st.current + " " + x;
      if rest == [] {
        assert [st.current] + [x] == [st.current, x];
        assert [st.current, x][1..] == [x];
      } else {
        JoinSnoc(rest, st.current, " ");
        JoinSnoc(rest, merged, " ");
      }
    } else {
      var chunks := st.chunks + [st.current];
      assert chunks[..|done|] == done;
      assert chunks[|done|..] == rest + [st.current];
      JoinSnoc(rest + [st.current], x, " ");
    }
  }

  /** Paragraph round trip: when every blank-line-separated paragraph is non-empty and fits
      in a chunk, joining the chunks with blank lines gives back the text exactly. */
  lemma ChunksRoundTrip(text: string, maxChunkSize: int)
    requires maxChunkSize >= 1
    requires ParagraphsFit(Split(text, ParagraphBreak), maxChunkSize)
    ensures Join(Chunks(text, maxChunkSize), ParagraphBreak) == text
  {
    var paras := Split(text, ParagraphBreak);
    PackFittingParagraphs(paras, maxChunkSize);
    JoinSplit(text, ParagraphBreak);
  }

  // ---------------------------------------------------------------------------------------
  // The recursive summarizer

  /** What one chunk contributes: the chain's summary, or the placeholder when it failed. */
  function ChunkSummary(summarize: string -> Option<string>, chunk: string): string
  {
    match summarize(chunk)
    case Some(s) => s
    case None => ChunkSummaryFailed
  }

  /** The `chunk_summaries` list: one entry per chunk, in chunk order. */
  function ChunkSummaries(summarize: string -> Option<string>, chunks: seq<string>): (r: seq<string>)
    ensures |r| == |chunks|
    ensures forall i :: 0 <= i < |chunks| && summarize(chunks[i]).Some? ==> r[i] == summarize(chunks[i]).value
    ensures forall i :: 0 <= i < |chunks| && summarize(chunks[i]).None? ==> r[i] == ChunkSummaryFailed
    decreases |chunks|
  {
    if chunks == [] then []
    else ChunkSummaries(summarize, chunks[..|chunks| - 1]) + [ChunkSummary(summarize, chunks[|chunks| - 1])]
  }

  /** `f"部分{i+1}:\n{summary}"`. */
  function Label(i: nat, summary: string): string
  {
    "部分" + Decimal(i + 1) + ":\n" + summary
  }

  /** `"\n\n".join(f"部分{i+1}:\n{summary}" for i, summary in enumerate(summaries))`. */
  function Combine(summaries: seq<string>): string
  {
    Join(seq(|summaries|, i requires 0 <= i < |summaries| => Label(i, summaries[i])), ParagraphBreak)
  }

  /** The combined text of one chunked pass over `text`. */
  function CombinedPass(summarize: string -> Option<string>, text: string): string
  {
    Combine(ChunkSummaries(summarize, Chunks(text, DefaultChunkSize)))
  }

  /** The result of `summarize_text(text, max_recursion, max_length)`. */
  function Summarize(summarize: string -> Option<string>, text: string, maxRecursion: int, maxLength: int): string
    decreases if maxRecursion > 0 then maxRecursion else 0
  {
    if |text| <= maxLength then
      match summarize(text)
      case Some(s) => s
      case None => SummaryFailed
    else
      var combined := CombinedPass(summarize, text);
      if maxRecursion <= 0 then
        (if |combined| > maxLength then SlicePrefix(combined, maxLength) + Ellipsis else combined)
      else if |combined| > maxLength then
        Summarize(summarize, combined, maxRecursion - 1, maxLength)
      else
        combined
  }

  /** The contents handed to the summary chain, in call order. */
  function Requests(summarize: string -> Option<string>, text: string, maxRecursion: int, maxLength: int): seq<string>
    decreases if maxRecursion > 0 then maxRecursion else 0
  {
    if |text| <= maxLength then [text]
    else
      var combined := CombinedPass(summarize, text);
      Chunks(text, DefaultChunkSize)
        + if maxRecursion > 0 && |combined| > maxLength
          then Requests(summarize, combined, maxRecursion - 1, maxLength) else []
  }

  /** The texts cut into chunks, one per chunked pass, in order: the text itself, then each
      combined text the recursion is made on. */
  function PassTexts(summarize: string -> Option<string>, text: string, maxRecursion: int, maxLength: int): seq<string>
    decreases if maxRecursion > 0 then maxRecursion else 0
  {
    if |text| <= maxLength then []
    else
      var combined := CombinedPass(summarize, text);
      [text] + if maxRecursion > 0 && |combined| > maxLength
               then PassTexts(summarize, combined, maxRecursion - 1, maxLength) else []
  }

  /** The chunks of some texts at the fixed size 4000, text after text. */
  function ChunkRequests(texts: seq<string>): seq<string>
    decreases |texts|
  {
    if texts == [] then [] else Chunks(texts[0], DefaultChunkSize) + ChunkRequests(texts[1..])
  }

  /** `summarize_text`. The recursion is on the combined chunk summaries with one less
      recursion budget; `requests` lists the contents sent to the summary chain, in order. */
  method SummarizeText(summarize: string -> Option<string>, text: string, maxRecursion: int, maxLength: int)
    returns (summary: string, requests: seq<string>)
    ensures summary == Summarize(summarize, text, maxRecursion, maxLength)
    ensures requests == Requests(summarize, text, maxRecursion, maxLength)
    decreases if maxRecursion > 0 then maxRecursion else 0
  {
    if |text| <= maxLength {
      requests := [text];
      var reply := summarize(text);
      summary := if reply.Some? then reply.value else SummaryFailed;
      return;
    }
    var chunks := ChunkText(text, DefaultChunkSize);
    var chunkSummaries;
    chunkSummaries, requests := SummarizeChunks(summarize, chunks);
    var combined := Combine(chunkSummaries);
    if maxRecursion <= 0 {
      summary := if |combined| > maxLength then SlicePrefix(combined, maxLength) + Ellipsis else combined;
    } else if |combined| > maxLength {
      var more;
      summary, more := SummarizeText(summarize, combined, maxRecursion - 1, maxLength);
      requests := requests + more;
    } else {
      summary := combined;
    }
  }

  /** The chunk loop of `summarize_text`: one chain call per chunk, in order, the failure
      placeholder standing in for a call that raised. */
  method SummarizeChunks(summarize: string -> Option<string>, chunks: seq<string>)
    returns (chunkSummaries: seq<string>, requests: seq<string>)
    ensures chunkSummaries == ChunkSummaries(summarize, chunks)
    ensures requests == chunks
  {
    chunkSummaries, requests := [], [];
    var i := 0;
    while i < |chunks|
      invariant 0 <= i <= |chunks|
      invariant chunkSummaries == ChunkSummaries(summarize, chunks[..i])
      invariant requests == chunks[..i]
    {
      assert chunks[..i + 1][..i] == chunks[..i];
      requests := requests + [chunks[i]];
      var reply := summarize(chunks[i]);
      if reply.Some? {
        chunkSummaries := chunkSummaries + [reply.value];
      } else {
        chunkSummaries := chunkSummaries + [ChunkSummaryFailed];
      }
      i := i + 1;
    }
    assert chunks[..|chunks|] == chunks;
  }

  // ---------------------------------------------------------------------------------------
  // Properties of the summarizer

  /** A text that fits is summarized by exactly one call on the whole text, whose answer is
      returned unchanged (or the failure sentinel when it raised). */
  lemma ShortTextIsSummarizedDirectly(summarize: string -> Option<string>, text: string, maxRecursion: int, maxLength: int)
    requires |text| <= maxLength
    ensures Requests(summarize, text, maxRecursion, maxLength) == [text]
    ensures Summarize(summarize, text, maxRecursion, maxLength) ==
            if summarize(text).Some? then summarize(text).value else SummaryFailed
  {
  }

  /** A longer text is cut into chunks of at most 4000 characters, whatever `max_length` is,
      and the first calls are one per chunk, in chunk order. */
  lemma LongTextIsSummarizedPerChunk(summarize: string -> Option<string>, text: string, maxRecursion: int, maxLength: int)
    requires |text| > maxLength
    ensures Chunks(text, DefaultChunkSize) <= Requests(summarize, text, maxRecursion, maxLength)
    ensures forall c :: c in Chunks(text, DefaultChunkSize) ==> 0 < |c| <= DefaultChunkSize
  {
    ChunksAreBounded(text, DefaultChunkSize);
  }

  /** The depth bound: at most `max_recursion + 1` chunked passes (one when the budget is
      zero or negative). */
  lemma {:induction false} PassesAreBounded(summarize: string -> Option<string>, text: string, maxRecursion: int, maxLength: int)
    ensures |PassTexts(summarize, text, maxRecursion, maxLength)| <= (if maxRecursion > 0 then maxRecursion else 0) + 1
    decreases if maxRecursion > 0 then maxRecursion else 0
  {
    if |text| > maxLength && maxRecursion > 0 {
      var combined := CombinedPass(summarize, text);
      if |combined| > maxLength {
        PassesAreBounded(summarize, combined, maxRecursion - 1, maxLength);
      }
    }
  }

  /** The chain calls are the one direct call on a text that fits, or else exactly the chunks
      of the chunked passes, pass after pass; every text cut into chunks is longer than
      `max_length`. */
  lemma {:induction false} RequestsFollowPasses(summarize: string -> Option<string>, text: string, maxRecursion: int, maxLength: int)
    ensures Requests(summarize, text, maxRecursion, maxLength) ==
            if |text| <= maxLength then [text] else ChunkRequests(PassTexts(summarize, text, maxRecursion, maxLength))
    ensures forall t :: t in PassTexts(summarize, text, maxRecursion, maxLength) ==> |t| > maxLength
    decreases if maxRecursion > 0 then maxRecursion else 0
  {
    if |text| > maxLength {
      var combined := CombinedPass(summarize, text);
      var recurse := maxRecursion > 0 && |combined| > maxLength;
      var rest := if recurse then PassTexts(summarize, combined, maxRecursion - 1, maxLength) else [];
      assert PassTexts(summarize, text, maxRecursion, maxLength) == [text] + rest;
      assert ([text] + rest)[1..] == rest;
      if recurse {
        RequestsFollowPasses(summarize, combined, maxRecursion - 1, maxLength);
      }
    }
  }

  /** A text longer than a non-negative `max_length` yields at most `max_length + 3`
      characters: the recursion ends either with a combined text that fits or with one
      cut to `max_length` and followed by "...". */
  lemma {:induction false} LongTextSummaryIsBounded(summarize: string -> Option<string>, text: string, maxRecursion: int, maxLength: int)
    requires 0 <= maxLength < |text|
    ensures |Summarize(summarize, text, maxRecursion, maxLength)| <= maxLength + |Ellipsis|
    decreases if maxRecursion > 0 then maxRecursion else 0
  {
    var combined := CombinedPass(summarize, text);
    if maxRecursion > 0 && |combined| > maxLength {
      LongTextSummaryIsBounded(summarize, combined, maxRecursion - 1, maxLength);
    }
  }

  lemma JoinStartsWithFirst(parts: seq<string>, sep: string)
    requires |parts| > 0
    ensures parts[0] <= Join(parts, sep)
  {
  }

  /** A combined text is empty (no chunks) or starts with the label of the first part. */
  lemma CombinedStartsWithLabel(summaries: seq<string>)
    ensures Combine(summaries) == [] || Combine(summaries)[0] == '部'
  {
    if |summaries| > 0 {
      var labelled := seq(|summaries|, i requires 0 <= i < |summaries| => Label(i, summaries[i]));
      JoinStartsWithFirst(labelled, ParagraphBreak);
      assert labelled[0][0] == '部';
    }
  }

  /** The failure sentinel comes only from the direct call: `summarize_text` returns
      "摘要生成失败" exactly when the text fits and its one call failed (or answered with that
      very text). A recursive call never takes the direct path, since it is made only on a
      combined text longer than `max_length`. */
  lemma {:induction false} FailureSentinelOnlyFromDirectCall(summarize: string -> Option<string>, text: string, maxRecursion: int, maxLength: int)
    ensures Summarize(summarize, text, maxRecursion, maxLength) == SummaryFailed <==>
      |text| <= maxLength && summarize(text) in {None, Some(SummaryFailed)}
    decreases if maxRecursion > 0 then maxRecursion else 0
  {
    if |text| > maxLength {
      var combined := CombinedPass(summarize, text);
      if maxRecursion > 0 && |combined| > maxLength {
        FailureSentinelOnlyFromDirectCall(summarize, combined, maxRecursion - 1, maxLength);
      } else {
        LastPassIsNotSentinel(summarize, text, maxRecursion, maxLength);
      }
    }
  }

  /** A pass that ends the recursion returns the combined text, or its cut followed by "...",
      neither of which is the failure sentinel. */
  lemma LastPassIsNotSentinel(summarize: string -> Option<string>, text: string, maxRecursion: int, maxLength: int)
    requires |text| > maxLength
    requires !(maxRecursion > 0 && |CombinedPass(summarize, text)| > maxLength)
    ensures Summarize(summarize, text, maxRecursion, maxLength) != SummaryFailed
  {
    var combined := CombinedPass(summarize, text);
    CombinedStartsWithLabel(ChunkSummaries(summarize, Chunks(text, DefaultChunkSize)));
    assert SummaryFailed[0] != '部';
    if maxRecursion <= 0 && |combined| > maxLength {
      var r := SlicePrefix(combined, maxLength) + Ellipsis;
      assert r[|r| - 1] == '.';
      assert SummaryFailed[|SummaryFailed| - 1] != '.';
    }
  }

  /** `summarize_document`: the page content with the defaults (3, 2000). The `except` branch
      is unreachable here because `summarize_text` catches every failure itself. */
  method SummarizeDocument(summarize: string -> Option<string>, document: Doc)
    returns (summary: string, requests: seq<string>)
    ensures summary == Summarize(summarize, document.pageContent, DefaultMaxRecursion, DefaultMaxLength)
    ensures requests == Requests(summarize, document.pageContent, DefaultMaxRecursion, DefaultMaxLength)
  {
    summary, requests := SummarizeText(summarize, document.pageContent, DefaultMaxRecursion, DefaultMaxLength);
  }

  /** `summarize_documents`: the page contents joined with blank lines, summarized with the
      defaults (3, 2000); no document boundary survives the join. */
  method SummarizeDocuments(summarize: string -> Option<string>, documents: seq<Doc>)
    returns (summary: string, requests: seq<string>)
    ensures var combined := Join(PageContents(documents), ParagraphBreak);
      && summary == Summarize(summarize, combined, DefaultMaxRecursion, DefaultMaxLength)
      && requests == Requests(summarize, combined, DefaultMaxRecursion, DefaultMaxLength)
  {
    var combinedText := Join(PageContents(documents), ParagraphBreak);
    summary, requests := SummarizeText(summarize, combinedText, DefaultMaxRecursion, DefaultMaxLength);
  }

  /** The total number of characters in some texts. */
  function TotalLength(texts: seq<string>): nat
    decreases |texts|
  {
    if texts == [] then 0 else |texts[0]| + TotalLength(texts[1..])
  }

  /** A join adds one separator between neighbouring parts. */
  lemma {:induction false} JoinLength(parts: seq<string>, sep: string)
    requires |parts| > 0
    ensures |Join(parts, sep)| == TotalLength(parts) + |sep| * (|parts| - 1)
    decreases |parts|
  {
    if |parts| > 1 {
      JoinLength(parts[1..], sep);
    }
  }

  /** A batch whose contents, with a blank line between neighbours, fit in 2000 characters is
      summarized by one call on the joined text. */
  lemma SmallBatchIsSummarizedDirectly(summarize: string -> Option<string>, documents: seq<Doc>)
    requires |documents| > 0
    requires TotalLength(PageContents(documents)) + 2 * (|documents| - 1) <= DefaultMaxLength
    ensures var combined := Join(PageContents(documents), ParagraphBreak);
      Requests(summarize, combined, DefaultMaxRecursion, DefaultMaxLength) == [combined]
  {
    JoinLength(PageContents(documents), ParagraphBreak);
  }
}
