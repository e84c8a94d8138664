/**
 * PDF chunking (`SantanderVectorDB._process_pdf_document`): each page's text is
 * split on blank lines into paragraphs, which are packed greedily, in arrival
 * order, into chunks of fewer than 1000 characters; a paragraph is never split.
 */
module PdfChunker {
  import opened Wrappers
  import opened Text
  import opened Records
  import Classification

  /** A paragraph joins the buffer only while buffer plus paragraph stay below this many characters. */
  const ChunkLimit: nat := 1000

  /** The buffer the packer holds for a group of paragraphs: each paragraph followed by a blank line. */
  function Glue(g: seq<string>): string
    decreases |g|
  {
    if g == [] then "" else Glue(g[..|g| - 1]) + g[|g| - 1] + "\n\n"
  }

  /** The packer's test for taking paragraph `p` into the buffer of the open group `open`. */
  predicate Fits(open: seq<string>, p: string) {
    |Glue(open) + p| < ChunkLimit
  }

  /** Closing the open group: nothing when no paragraph was taken yet. */
  function Close(open: seq<string>): seq<seq<string>> {
    if open == [] then [] else [open]
  }

  /** The greedy grouping of the paragraphs `ps`, given the group `open` still being filled. */
  function GroupFrom(ps: seq<string>, open: seq<string>): seq<seq<string>>
    decreases |ps|
  {
    if ps == [] then Close(open)
    else if Fits(open, ps[0]) then GroupFrom(ps[1..], open + [ps[0]])
    else Close(open) + GroupFrom(ps[1..], [ps[0]])
  }

  /** How the packer groups the paragraphs of one page. */
  function Groups(ps: seq<string>): seq<seq<string>> {
    GroupFrom(ps, [])
  }

  /** The text a group becomes: its buffer, stripped. */
  function GroupText(g: seq<string>): string {
    Strip(Glue(g))
  }

  /** The texts of the groups whose buffer is not blank, in order. */
  function Emit(gs: seq<seq<string>>): seq<string>
    decreases |gs|
  {
    if gs == [] then []
    else (if GroupText(gs[0]) == [] then [] else [GroupText(gs[0])]) + Emit(gs[1..])
  }

  /** The chunk texts of one page's paragraphs. */
  function PackParagraphs(ps: seq<string>): seq<string> {
    Emit(Groups(ps))
  }

  /** The metadata of every chunk of page `page` of file `fileName`. */
  function PdfMetadata(fileName: string, page: nat, now: string): Metadata {
    Metadata(Some(fileName), Some("pdf"), Some(page), None, None,
             Some(Classification.ClassifyDocumentType(fileName)), Some(now))
  }

  /** Texts paired with one metadata dictionary. */
  function Tag(texts: seq<string>, m: Metadata): (r: seq<Chunk>)
    ensures |r| == |texts|
    ensures forall i :: 0 <= i < |texts| ==> r[i] == Chunk(texts[i], m)
  {
    seq(|texts|, i requires 0 <= i < |texts| => Chunk(texts[i], m))
  }

  /** The chunks of one page: none for a blank page, otherwise its packed paragraphs. */
  function PageChunks(text: string, page: nat, fileName: string, now: string): seq<Chunk> {
    if Strip(text) == [] then []
    else Tag(PackParagraphs(SplitParagraphs(text)), PdfMetadata(fileName, page, now))
  }

  /** The chunks of pages 1 to |texts|, in page order. */
  function PagesChunks(texts: seq<string>, fileName: string, now: string): seq<Chunk>
    decreases |texts|
  {
    if texts == [] then []
    else PagesChunks(texts[..|texts| - 1], fileName, now)
         + PageChunks(texts[|texts| - 1], |texts|, fileName, now)
  }

  /**
   * The chunks `_process_pdf_document` returns. Pages are given as the reader
   * delivers them, `None` where opening the file or extracting a page's text
   * raised; the exception ends the document, keeping the chunks of the pages before it.
   */
  function PdfChunks(fileName: string, pages: seq<Option<string>>, now: string): seq<Chunk> {
    PagesChunks(ValuesBeforeNone(pages), fileName, now)
  }

  // ---------------------------------------------------------------------------
  // The packing loop and the page loop

  /** Packs one page, accumulating the buffer and emitting each non-blank buffer it closes. */
  method ProcessPage(text: string, page: nat, fileName: string, now: string) returns (chunks: seq<Chunk>)
    ensures chunks == PageChunks(text, page, fileName, now)
  {
    chunks := [];
    if Strip(text) != [] {
      var paragraphs := SplitParagraphs(text);
      var meta := PdfMetadata(fileName, page, now);
      var current := "";
      ghost var open: seq<string> := [];
      ghost var texts: seq<string> := [];
      var i := 0;
      while i < |paragraphs|
        invariant 0 <= i <= |paragraphs|
        invariant current == Glue(open)
        invariant chunks == Tag(texts, meta)
        invariant texts + Emit(GroupFrom(paragraphs[i..], open)) == PackParagraphs(paragraphs)
      {
        var paragraph := paragraphs[i];
        if |current + paragraph| < ChunkLimit {
          StepFits(paragraphs, i, open);
          current := current + paragraph + "\n\n";
          open := open + [paragraph];
        } else {
          CloseKeepsPacking(paragraphs, i, open, texts, PackParagraphs(paragraphs));
          if Strip(current) != [] {
            TagSnoc(texts, Strip(current), meta);
            chunks := chunks + [Chunk(Strip(current), meta)];
            texts := texts + [Strip(current)];
          }
          current := paragraph + "\n\n";
          GlueOne(paragraph);
          open := [paragraph];
        }
        i := i + 1;
      }
      LastClose(open);
      assert paragraphs[|paragraphs|..] == [];
      if Strip(current) != [] {
        TagSnoc(texts, Strip(current), meta);
        chunks := chunks + [Chunk(Strip(current), meta)];
        texts := texts + [Strip(current)];
      }
    }
  }

  lemma TagSnoc(texts: seq<string>, x: string, m: Metadata)
    ensures Tag(texts + [x], m) == Tag(texts, m) + [Chunk(x, m)]
  {
  }

  lemma GlueOne(p: string)
    ensures Glue([p]) == p + "\n\n"
  {
    assert [p][..0] == [];
  }

  /** The paragraph fits: it joins the open group. */
  lemma StepFits(ps: seq<string>, i: nat, open: seq<string>)
    requires i < |ps| && Fits(open, ps[i])
    ensures GroupFrom(ps[i..], open) == GroupFrom(ps[i + 1..], open + [ps[i]])
    ensures Glue(open + [ps[i]]) == Glue(open) + ps[i] + "\n\n"
  {
    assert ps[i..][1..] == ps[i + 1..];
    assert (open + [ps[i]])[..|open|] == open;
  }

  /** The paragraph does not fit: the open group is closed (emitted if not blank) and the paragraph opens the next. */
  lemma StepCloses(ps: seq<string>, i: nat, open: seq<string>)
    requires i < |ps| && !Fits(open, ps[i])
    ensures Emit(GroupFrom(ps[i..], open)) ==
      (if Strip(Glue(open)) == [] then [] else [Strip(Glue(open))]) + Emit(GroupFrom(ps[i + 1..], [ps[i]]))
  {
    assert ps[i..][1..] == ps[i + 1..];
    EmitAppend(Close(open), GroupFrom(ps[i + 1..], [ps[i]]));
    if open == [] {
      assert Strip("") == [];
    }
  }

  /** Closing the open group keeps the emitted texts plus those still to come equal to the page's packing. */
  lemma {:induction false} CloseKeepsPacking(ps: seq<string>, i: nat, open: seq<string>, texts: seq<string>, packed: seq<string>)
    requires i < |ps| && !Fits(open, ps[i])
    requires texts + Emit(GroupFrom(ps[i..], open)) == packed
    ensures var closed := Strip(Glue(open));
            (if closed == [] then texts else texts + [closed]) + Emit(GroupFrom(ps[i + 1..], [ps[i]])) == packed
  {
    var closed := Strip(Glue(open));
    StepCloses(ps, i, open);
    Regroup(texts, closed, Emit(GroupFrom(ps[i + 1..], [ps[i]])), packed);
  }

  lemma Regroup(texts: seq<string>, closed: string, later: seq<string>, packed: seq<string>)
    requires texts + ((if closed == [] then [] else [closed]) + later) == packed
    ensures (if closed == [] then texts else texts + [closed]) + later == packed
  {
    if closed != [] {
      assert texts + ([closed] + later) == (texts + [closed]) + later;
    } else {
      assert [] + later == later;
    }
  }

  lemma LastClose(open: seq<string>)
    ensures Emit(GroupFrom([], open)) == if Strip(Glue(open)) == [] then [] else [Strip(Glue(open))]
  {
    if open == [] {
      assert Strip("") == [];
    }
  }

  /** Reads pages in order, numbering them from 1; the first failing page ends the document. */
  method ProcessPdfDocument(fileName: string, pages: seq<Option<string>>, now: string) returns (chunks: seq<Chunk>)
    ensures chunks == PdfChunks(fileName, pages, now)
  {
    chunks := [];
    var k := 0;
    ghost var texts := ValuesBeforeNone(pages);
    while k < |pages|
      invariant 0 <= k <= |texts|
      invariant chunks == PagesChunks(texts[..k], fileName, now)
    {
      if pages[k].None? {
        break;
      }
      var pageChunks := ProcessPage(pages[k].value, k + 1, fileName, now);
      PagesChunksStep(texts, k, fileName, now);
      chunks := chunks + pageChunks;
      k := k + 1;
    }
    assert texts[..k] == texts;
  }

  lemma PagesChunksStep(texts: seq<string>, k: nat, fileName: string, now: string)
    requires k < |texts|
    ensures PagesChunks(texts[..k + 1], fileName, now) == PagesChunks(texts[..k], fileName, now) + PageChunks(texts[k], k + 1, fileName, now)
  {
    assert texts[..k + 1][..k] == texts[..k];
  }

  // ---------------------------------------------------------------------------
  // Lemmas

  lemma {:induction false} EmitAppend(a: seq<seq<string>>, b: seq<seq<string>>)
    ensures Emit(a + b) == Emit(a) + Emit(b)
    decreases |a|
  {
    if a == [] {
      assert a + b == b;
    } else {
      assert (a + b)[1..] == a[1..] + b;
      EmitAppend(a[1..], b);
    }
  }

  /** Concatenation of a list of groups. */
  function Flatten(gs: seq<seq<string>>): seq<string>
    decreases |gs|
  {
    if gs == [] then [] else gs[0] + Flatten(gs[1..])
  }

  lemma {:induction false} FlattenAppend(a: seq<seq<string>>, b: seq<seq<string>>)
    ensures Flatten(a + b) == Flatten(a) + Flatten(b)
    decreases |a|
  {
    if a == [] {
      assert a + b == b;
    } else {
      assert (a + b)[1..] == a[1..] + b;
      FlattenAppend(a[1..], b);
    }
  }

  /**
   * The grouping is a partition of the open group followed by the paragraphs,
   * in order, into non-empty groups; an open group stays at the front of the first group.
   */
  lemma {:induction false} GroupFromPartition(ps: seq<string>, open: seq<string>)
    ensures Flatten(GroupFrom(ps, open)) == open + ps
    ensures forall g :: g in GroupFrom(ps, open) ==> g != []
    ensures open != [] ==> |GroupFrom(ps, open)| > 0 && |open| <= |GroupFrom(ps, open)[0]|
                           && GroupFrom(ps, open)[0][..|open|] == open
    decreases |ps|
  {
    if ps == [] {
      assert open + ps == open;
      if open != [] {
        assert Flatten([open]) == open + Flatten([open][1..]);
      }
    } else if Fits(open, ps[0]) {
      GroupFromPartition(ps[1..], open + [ps[0]]);
      assert (open + [ps[0]]) + ps[1..] == open + ps;
      var r := GroupFrom(ps[1..], open + [ps[0]]);
      assert r[0][..|open + [ps[0]]|][..|open|] == open;
    } else {
      GroupFromPartition(ps[1..], [ps[0]]);
      var r := GroupFrom(ps[1..], [ps[0]]);
      FlattenAppend(Close(open), r);
      assert [ps[0]] + ps[1..] == ps;
      assert r[0][..1] == [ps[0]];
      assert r[0] == [ps[0]] + r[0][1..];
      if open != [] {
        assert Flatten([open]) == open + Flatten([open][1..]);
      }
    }
  }

  function Last(g: seq<string>): string
    requires g != []
  {
    g[|g| - 1]
  }

  function AllButLast(g: seq<string>): seq<string>
    requires g != []
  {
    g[..|g| - 1]
  }

  /** A group of two or more paragraphs was grown only by paragraphs that fit: its last one was admitted by the test. */
  ghost predicate GrownByFit(g: seq<string>) {
    |g| >= 2 ==> Fits(AllButLast(g), Last(g))
  }

  lemma {:induction false} GroupFromBound(ps: seq<string>, open: seq<string>)
    requires GrownByFit(open)
    ensures forall g :: g in GroupFrom(ps, open) ==> GrownByFit(g)
    decreases |ps|
  {
    if ps != [] {
      if Fits(open, ps[0]) {
        var g := open + [ps[0]];
        assert AllButLast(g) == open;
        GroupFromBound(ps[1..], g);
      } else {
        GroupFromBound(ps[1..], [ps[0]]);
      }
    }
  }

  /** Each group after the first was opened because its first paragraph did not fit beside the group before. */
  ghost predicate ClosedGreedily(gs: seq<seq<string>>) {
    forall j :: 1 <= j < |gs| ==> gs[j] != [] && !Fits(gs[j - 1], gs[j][0])
  }

  lemma {:induction false} GroupFromGreedy(ps: seq<string>, open: seq<string>)
    ensures ClosedGreedily(GroupFrom(ps, open))
    decreases |ps|
  {
    if ps != [] {
      if Fits(open, ps[0]) {
        GroupFromGreedy(ps[1..], open + [ps[0]]);
      } else {
        var rest := GroupFrom(ps[1..], [ps[0]]);
        GroupFromGreedy(ps[1..], [ps[0]]);
        GroupFromPartition(ps[1..], [ps[0]]);
        assert rest[0][0] == rest[0][..1][0] == ps[0];
        if open != [] {
          var r := [open] + rest;
          assert GroupFrom(ps, open) == r;
          forall j | 1 <= j < |r| ensures r[j] != [] && !Fits(r[j - 1], r[j][0]) {
            if j > 1 {
              assert r[j - 1] == rest[j - 2] && r[j] == rest[j - 1];
            }
          }
        }
      }
    }
  }

  lemma {:induction false} GlueBlank(g: seq<string>)
    ensures IsBlank(Glue(g)) <==> forall p :: p in g ==> IsBlank(p)
    decreases |g|
  {
    if g != [] {
      GlueBlank(g[..|g| - 1]);
      var a, b := Glue(g[..|g| - 1]), g[|g| - 1];
      assert Glue(g) == a + b + "\n\n";
      BlankAppend(a, b);
      BlankAppend(a + b, "\n\n");
      assert forall p :: p in g <==> p in g[..|g| - 1] || p == b;
    }
  }

  lemma {:induction false} GlueIsJoin(g: seq<string>)
    requires g != []
    ensures Glue(g) == Join(g, "\n\n") + "\n\n"
    decreases |g|
  {
    if |g| > 1 {
      GlueIsJoin(g[..|g| - 1]);
      assert g[..|g| - 1] + [g[|g| - 1]] == g;
      JoinSnoc(g[..|g| - 1], g[|g| - 1], "\n\n");
    }
  }

  /** A group's text is its paragraphs rejoined by blank lines and stripped: no paragraph is cut. */
  lemma GroupTextIsJoin(g: seq<string>)
    requires g != []
    ensures GroupText(g) == Strip(Join(g, "\n\n"))
  {
    GlueIsJoin(g);
    StripAppendBlank(Join(g, "\n\n"), "\n\n");
  }

  /** A group of two or more paragraphs becomes a text shorter than the limit. */
  lemma GroupTextBound(g: seq<string>)
    requires |g| >= 2 && GrownByFit(g)
    ensures |GroupText(g)| < ChunkLimit
  {
    var x := Glue(AllButLast(g)) + Last(g);
    assert g[..|g| - 1] == AllButLast(g);
    assert Glue(g) == x + "\n\n";
    StripAppendBlank(x, "\n\n");
    StripSpec(x);
  }

  lemma {:induction false} EmitShape(gs: seq<seq<string>>)
    ensures forall c :: c in Emit(gs) ==> c != [] && IsStripped(c)
    decreases |gs|
  {
    if gs != [] {
      EmitShape(gs[1..]);
      StripSpec(Glue(gs[0]));
    }
  }

  /** The groups that yield a chunk, in order: those with at least one non-blank paragraph. */
  function Kept(gs: seq<seq<string>>): seq<seq<string>>
    decreases |gs|
  {
    if gs == [] then []
    else (if GroupText(gs[0]) == [] then [] else [gs[0]]) + Kept(gs[1..])
  }

  lemma {:induction false} EmitIsKept(gs: seq<seq<string>>)
    ensures |Emit(gs)| == |Kept(gs)|
    ensures forall j :: 0 <= j < |Kept(gs)| ==> Emit(gs)[j] == GroupText(Kept(gs)[j])
    decreases |gs|
  {
    if gs != [] {
      EmitIsKept(gs[1..]);
      if GroupText(gs[0]) != [] {
        var e, k := Emit(gs), Kept(gs);
        assert e == [GroupText(gs[0])] + Emit(gs[1..]);
        assert k == [gs[0]] + Kept(gs[1..]);
        forall j | 1 <= j < |k| ensures e[j] == GroupText(k[j]) {
          assert e[j] == Emit(gs[1..])[j - 1] && k[j] == Kept(gs[1..])[j - 1];
        }
      }
    }
  }

  lemma {:induction false} KeptMembers(gs: seq<seq<string>>)
    ensures forall g :: g in Kept(gs) <==> g in gs && GroupText(g) != []
    decreases |gs|
  {
    if gs != [] {
      KeptMembers(gs[1..]);
      assert forall g :: g in gs <==> g == gs[0] || g in gs[1..];
    }
  }

  /**
   * Paragraph integrity: the page's paragraphs are partitioned, in arrival
   * order, into non-empty groups; the chunks are exactly the groups that hold
   * a non-blank paragraph, each one its paragraphs rejoined by blank lines and
   * stripped; a group yields no chunk only when all its paragraphs are blank.
   */
  lemma ParagraphIntegrity(ps: seq<string>)
    ensures Flatten(Groups(ps)) == ps
    ensures forall g :: g in Groups(ps) ==> g != []
    ensures var kept := Kept(Groups(ps));
      && |PackParagraphs(ps)| == |kept|
      && forall j :: 0 <= j < |kept| ==> PackParagraphs(ps)[j] == Strip(Join(kept[j], "\n\n"))
    ensures forall g :: g in Groups(ps) ==>
      (g in Kept(Groups(ps)) <==> exists p :: p in g && !IsBlank(p))
  {
    GroupFromPartition(ps, []);
    assert [] + ps == ps;
    var gs := Groups(ps);
    EmitIsKept(gs);
    KeptMembers(gs);
    forall j | 0 <= j < |Kept(gs)| ensures PackParagraphs(ps)[j] == Strip(Join(Kept(gs)[j], "\n\n")) {
      GroupTextIsJoin(Kept(gs)[j]);
    }
    forall g | g in gs ensures g in Kept(gs) <==> exists p :: p in g && !IsBlank(p) {
      GlueBlank(g);
      StripSpec(Glue(g));
    }
  }

  /**
   * Size bound and greedy closing: a chunk of two or more paragraphs is shorter
   * than the limit, so only a lone paragraph can exceed it; each group was
   * closed because the next paragraph did not fit beside it.
   */
  lemma PackingBound(ps: seq<string>)
    ensures forall g :: g in Groups(ps) && |g| >= 2 ==> |GroupText(g)| < ChunkLimit
    ensures ClosedGreedily(Groups(ps))
  {
    GroupFromBound(ps, []);
    forall g | g in Groups(ps) && |g| >= 2 ensures |GroupText(g)| < ChunkLimit {
      GroupTextBound(g);
    }
    GroupFromGreedy(ps, []);
  }

  /** Every chunk text is stripped and not blank. */
  lemma PackedChunksStripped(ps: seq<string>)
    ensures forall c :: c in PackParagraphs(ps) ==> c != [] && IsStripped(c)
  {
    EmitShape(Groups(ps));
  }

  /** Two non-blank paragraphs that together pass the limit become two chunks. */
  lemma TwoParagraphsTwoChunks(p1: string, p2: string)
    requires !IsBlank(p1) && !IsBlank(p2)
    requires |p1| < ChunkLimit && |p1| + 2 + |p2| >= ChunkLimit
    ensures PackParagraphs([p1, p2]) == [Strip(p1), Strip(p2)]
  {
    assert Glue([p1]) == p1 + "\n\n" by { assert [p1][..0] == []; }
    assert Glue([p2]) == p2 + "\n\n" by { assert [p2][..0] == []; }
    assert [p1, p2][1..] == [p2];
    assert [p2][1..] == [];
    assert [] + [p1] == [p1];
    assert Fits([], p1);
    assert !Fits([p1], p2);
    assert GroupFrom([p2], [p1]) == [[p1]] + GroupFrom([], [p2]);
    assert Groups([p1, p2]) == [[p1], [p2]];
    StripAppendBlank(p1, "\n\n");
    StripAppendBlank(p2, "\n\n");
    StripSpec(p1);
    StripSpec(p2);
    assert GroupText([p1]) == Strip(p1) && GroupText([p2]) == Strip(p2);
    assert [[p1], [p2]][1..] == [[p2]];
    assert Emit([[p2]]) == [Strip(p2)] + Emit([[p2]][1..]);
    assert [[p2]][1..] == [];
  }

  /** No blank line inside: the text holds no "\n\n". */
  predicate NoBlankLine(s: string) {
    forall i :: 0 <= i < |s| - 1 ==> !(s[i] == '\n' && s[i + 1] == '\n')
  }

  lemma {:induction false} SplitWithoutSeparator(s: string)
    requires NoBlankLine(s)
    ensures SplitParagraphs(s) == [s]
    decreases |s|
  {
    if |s| >= 2 {
      assert !(s[0] == '\n' && s[1] == '\n');
      assert NoBlankLine(s[1..]) by {
        forall i | 0 <= i < |s[1..]| - 1 ensures !(s[1..][i] == '\n' && s[1..][i + 1] == '\n') {
          assert s[1..][i] == s[i + 1] && s[1..][i + 1] == s[i + 2];
        }
      }
      SplitWithoutSeparator(s[1..]);
      assert [s[0]] + s[1..] == s;
    }
  }

  lemma {:induction false} SplitAfterFirst(a: string, b: string)
    requires NoBlankLine(a) && (a == [] || a[|a| - 1] != '\n')
    ensures SplitParagraphs(a + "\n\n" + b) == [a] + SplitParagraphs(b)
    decreases |a|
  {
    var s := a + "\n\n" + b;
    if a == [] {
      assert s == "\n\n" + b && s[2..] == b;
    } else {
      assert s[0] == a[0];
      assert !(s[0] == '\n' && s[1] == '\n') by {
        if |a| >= 2 {
          assert s[1] == a[1];
        }
      }
      var a' := a[1..];
      assert NoBlankLine(a') by {
        forall i | 0 <= i < |a'| - 1 ensures !(a'[i] == '\n' && a'[i + 1] == '\n') {
          assert a'[i] == a[i + 1] && a'[i + 1] == a[i + 2];
        }
      }
      assert s[1..] == a' + "\n\n" + b;
      SplitAfterFirst(a', b);
      assert [a[0]] + a' == a;
    }
  }

  /**
   * A one-page document of two non-blank paragraphs separated by a blank line,
   * the first under the limit and both together over it, gives exactly two
   * chunks, both from page 1 of that file.
   */
  lemma OnePageTwoParagraphs(p1: string, p2: string, fileName: string, now: string)
    requires NoBlankLine(p1) && NoBlankLine(p2) && (p1 == [] || p1[|p1| - 1] != '\n')
    requires !IsBlank(p1) && !IsBlank(p2)
    requires |p1| < ChunkLimit && |p1| + 2 + |p2| >= ChunkLimit
    ensures var chunks := PdfChunks(fileName, [Some(p1 + "\n\n" + p2)], now);
      && |chunks| == 2
      && chunks[0].content == Strip(p1) && chunks[1].content == Strip(p2)
      && chunks[0].metadata.page == chunks[1].metadata.page == Some(1)
      && chunks[0].metadata.source == chunks[1].metadata.source == Some(fileName)
  {
    var text := p1 + "\n\n" + p2;
    SplitAfterFirst(p1, p2);
    SplitWithoutSeparator(p2);
    TwoParagraphsTwoChunks(p1, p2);
    assert !IsBlank(text) by {
      var i :| 0 <= i < |p1| && !IsSpace(p1[i]);
      assert text[i] == p1[i];
    }
    StripSpec(text);
    var pages := [Some(text)];
    assert FirstNone(pages[1..]) == 0;
    assert ValuesBeforeNone(pages) == [text];
    assert [text][..0] == [];
    assert PagesChunks([text], fileName, now) == PageChunks(text, 1, fileName, now);
    assert PageChunks(text, 1, fileName, now) == Tag([Strip(p1), Strip(p2)], PdfMetadata(fileName, 1, now));
  }

  /** A chunk that names the file, is tagged `pdf` with a page between 1 and |texts|, and is a packed text of that page. */
  ghost predicate TracesTo(c: Chunk, texts: seq<string>, fileName: string) {
    && c.metadata.source == Some(fileName)
    && c.metadata.sourceType == Some("pdf")
    && c.metadata.page.Some? && 1 <= c.metadata.page.value <= |texts|
    && c.content in PackParagraphs(SplitParagraphs(texts[c.metadata.page.value - 1]))
    && c.content != [] && IsStripped(c.content)
  }

  lemma PageChunksTrace(texts: seq<string>, fileName: string, now: string)
    requires texts != []
    ensures forall c :: c in PageChunks(texts[|texts| - 1], |texts|, fileName, now) ==> TracesTo(c, texts, fileName)
  {
    PackedChunksStripped(SplitParagraphs(texts[|texts| - 1]));
  }

  lemma TracesToExtend(c: Chunk, texts: seq<string>, fileName: string)
    requires texts != [] && TracesTo(c, texts[..|texts| - 1], fileName)
    ensures TracesTo(c, texts, fileName)
  {
    assert texts[..|texts| - 1][c.metadata.page.value - 1] == texts[c.metadata.page.value - 1];
  }

  /** Traceability: every chunk of a document names the file, is tagged `pdf` and a page from 1 to the number read, and is a stripped, non-blank packed text of that page. */
  lemma {:induction false} PdfChunksTraceable(texts: seq<string>, fileName: string, now: string)
    ensures forall c :: c in PagesChunks(texts, fileName, now) ==> TracesTo(c, texts, fileName)
    decreases |texts|
  {
    if texts != [] {
      var n := |texts|;
      PdfChunksTraceable(texts[..n - 1], fileName, now);
      PageChunksTrace(texts, fileName, now);
      forall c | c in PagesChunks(texts[..n - 1], fileName, now) ensures TracesTo(c, texts, fileName) {
        TracesToExtend(c, texts, fileName);
      }
    }
  }

  /** A page whose text is only whitespace contributes no chunk. */
  lemma BlankPageNoChunks(text: string, page: nat, fileName: string, now: string)
    requires IsBlank(text)
    ensures PageChunks(text, page, fileName, now) == []
  {
    StripSpec(text);
  }
}
