/** makeStricken.js: write a shell script that marks the retracted updates of a
    live thread in an archive made by dumpUpdater.js. The script is one `sed`
    call: a fixed preamble, one `-e` expression per retracted update in fetch
    order, and the path of the archive, which is written only when the loop ends
    without an error. The script also counts the retracted updates it saw. */
module MakeStricken {
  import opened Values
  import opened Records
  import opened Output
  import opened Pages

  /** The first line written: the interpreter line and the start of the `sed` call. */
  const Preamble := "#!/bin/sh\nsed -ri \\"

  /** `update.stricken` is truthy. */
  predicate Stricken(u: Update)
  {
    Truthy(Property(u, StrikeFlag, "stricken"))
  }

  /** The `sed` expression that adds the `stricken` attribute to the element of
      the update with this id. */
  function StrikeCommand(id: JsVal): string
  {
    "-e 's/(" + Display(id) + "\" .*\")(><div)/\\1 stricken\\2/g' \\"
  }

  /** What `println(FORFILE)` writes for the command-line argument: an absent
      argument formats as `undefined`. */
  function ArgText(arg: Option<string>): string
  {
    match arg
    case None => "undefined"
    case Some(s) => s
  }

  /** The lines written for the updates `us`: one per retracted update, in order. */
  function StrikeLines(us: seq<Update>): seq<string>
  {
    if us == [] then []
    else
      var last := us[|us| - 1];
      StrikeLines(us[..|us| - 1]) + (if Stricken(last) then [Line(StrikeCommand(last.id))] else [])
  }

  /** The counter `num` after the updates `us`. */
  function StrickenCount(us: seq<Update>): nat
  {
    if us == [] then 0
    else StrickenCount(us[..|us| - 1]) + (if Stricken(us[|us| - 1]) then 1 else 0)
  }

  /** Everything the `try` block writes, and the error it ends with. */
  function ScriptRun(forFile: Option<string>, pages: seq<Page>): Run
    requires HasStop(pages)
  {
    var lines := [Line(Preamble)] + StrikeLines(Fetched(pages));
    match pages[StopIndex(pages)]
    case Err(e) => Run(lines, Some(e))
    case Ok(_) => Run(lines + [Line(ArgText(forFile))], None)
  }

  /** The body of the script after `getInfo` succeeded: open the writer, run the
      `try` block, close the writer in `finally`, and report `num`. */
  method MakeStrickenScript(forFile: Option<string>, outFile: Option<string>, pages: seq<Page>)
    returns (out: Writer, num: nat, failure: Option<Failure>)
    requires HasStop(pages)
    ensures fresh(out) && out.toStdout == (outFile == None || outFile.value == "")
    ensures out.written == ScriptRun(forFile, pages).chunks
    ensures failure == ScriptRun(forFile, pages).failure
    ensures num == StrickenCount(Fetched(pages))
    ensures out.ended == !out.toStdout
  {
    out := new Writer(outFile);
    num, failure := WriteScript(out, forFile, pages);
    out.Close();
  }

  /** The `try` block: the preamble, the pagination loop, and the target path. */
  method WriteScript(out: Writer, forFile: Option<string>, pages: seq<Page>)
    returns (num: nat, failure: Option<Failure>)
    requires HasStop(pages)
    modifies out`written
    ensures out.written == old(out.written) + ScriptRun(forFile, pages).chunks
    ensures failure == ScriptRun(forFile, pages).failure
    ensures num == StrickenCount(Fetched(pages))
  {
    num := 0;
    out.Println(Preamble);
    ghost var start := out.written;
    var i := 0;
    while true
      invariant i <= StopIndex(pages)
      invariant out.written == start + StrikeLines(Flatten(pages[..i]))
      invariant num == StrickenCount(Flatten(pages[..i]))
      decreases StopIndex(pages) - i
    {
      var page := pages[i];
      if page.Err? {
        WrittenInTurn(old(out.written), [Line(Preamble)], StrikeLines(Fetched(pages)));
        return num, Some(page.error);
      }
      if page.value == [] {
        break;
      }
      FlattenSnoc(pages, i);
      num := WriteStrikes(out, start, Flatten(pages[..i]), page.value, num);
      i := i + 1;
    }
    out.Println(ArgText(forFile));
    WrittenInTurn(old(out.written), [Line(Preamble)], StrikeLines(Fetched(pages)));
    WrittenInTurn(old(out.written), [Line(Preamble)] + StrikeLines(Fetched(pages)), [Line(ArgText(forFile))]);
    failure := None;
  }

  /** The `for (let update of updates)` loop over one page. `done` are the updates
      of the earlier pages. */
  method WriteStrikes(out: Writer, ghost start: seq<string>, ghost done: seq<Update>, updates: seq<Update>, num0: nat)
    returns (num: nat)
    requires out.written == start + StrikeLines(done) && num0 == StrickenCount(done)
    modifies out`written
    ensures out.written == start + StrikeLines(done + updates)
    ensures num == StrickenCount(done + updates)
  {
    num := num0;
    assert done + updates[..0] == done;
    for j := 0 to |updates|
      invariant out.written == start + StrikeLines(done + updates[..j])
      invariant num == StrickenCount(done + updates[..j])
    {
      var u := updates[j];
      ghost var prev := StrikeLines(done + updates[..j]);
      NextUpdate(done, updates, j);
      StrikeSnoc(done + updates[..j], u);
      if Stricken(u) {
        out.Println(StrikeCommand(u.id));
        WrittenInTurn(start, prev, [Line(StrikeCommand(u.id))]);
        num := num + 1;
      }
    }
    assert updates[..|updates|] == updates;
  }

  /** One more update: a retracted one adds its line and one to the count. */
  lemma StrikeSnoc(us: seq<Update>, u: Update)
    ensures StrikeLines(us + [u]) ==
              StrikeLines(us) + (if Stricken(u) then [Line(StrikeCommand(u.id))] else [])
    ensures StrickenCount(us + [u]) == StrickenCount(us) + (if Stricken(u) then 1 else 0)
  {
    assert (us + [u])[..|us|] == us;
  }

  /** The indices of the retracted updates. */
  function StrickenIndices(us: seq<Update>): set<nat>
  {
    set i: nat | i < |us| && Stricken(us[i])
  }

  /** `num` is the number of retracted updates seen, and as many `-e` lines were
      written. */
  lemma {:induction false} CountMatchesLines(us: seq<Update>)
    ensures StrickenCount(us) == |StrickenIndices(us)| == |StrikeLines(us)|
  {
    if us != [] {
      var init := us[..|us| - 1];
      CountMatchesLines(init);
      var n := |us| - 1;
      assert forall i :: 0 <= i < n ==> us[i] == init[i];
      if Stricken(us[n]) {
        assert StrickenIndices(us) == StrickenIndices(init) + {n};
      } else {
        assert StrickenIndices(us) == StrickenIndices(init);
      }
    }
  }

  /** A line is among the `-e` lines exactly when it is the command of a
      retracted update. */
  lemma {:induction false} StrikeLinesMembership(us: seq<Update>, line: string)
    ensures line in StrikeLines(us) <==> StrikeOf(us, line)
  {
    if us != [] {
      var init := us[..|us| - 1];
      var n := |us| - 1;
      StrikeLinesMembership(init, line);
      var own := if Stricken(us[n]) then [Line(StrikeCommand(us[n].id))] else [];
      assert StrikeLines(us) == StrikeLines(init) + own;
      assert line in StrikeLines(us) <==> line in StrikeLines(init) || line in own;
      StrikeOfSnoc(us, line);
    }
  }

  /** `line` is the command of a retracted update of `us`. */
  predicate StrikeOf(us: seq<Update>, line: string)
  {
    exists i :: 0 <= i < |us| && Stricken(us[i]) && line == Line(StrikeCommand(us[i].id))
  }

  lemma StrikeOfSnoc(us: seq<Update>, line: string)
    requires us != []
    ensures var n := |us| - 1;
            StrikeOf(us, line) <==>
              StrikeOf(us[..n], line) || (Stricken(us[n]) && line == Line(StrikeCommand(us[n].id)))
  {
    var n := |us| - 1;
    StrikeOfInit(us, line);
    if StrikeOf(us, line) {
      var i :| 0 <= i < |us| && Stricken(us[i]) && line == Line(StrikeCommand(us[i].id));
      if i < n {
        StrikeOfAt(us[..n], i, line);
      }
    }
  }

  /** A retracted update of a prefix is one of the whole sequence. */
  lemma StrikeOfInit(us: seq<Update>, line: string)
    requires us != []
    ensures StrikeOf(us[..|us| - 1], line) ==> StrikeOf(us, line)
  {
    var init := us[..|us| - 1];
    if StrikeOf(init, line) {
      var i :| 0 <= i < |init| && Stricken(init[i]) && line == Line(StrikeCommand(init[i].id));
      StrikeOfAt(us, i, line);
    }
  }

  lemma StrikeOfAt(us: seq<Update>, i: nat, line: string)
    requires i < |us| && Stricken(us[i]) && line == Line(StrikeCommand(us[i].id))
    ensures StrikeOf(us, line)
  {
  }

  /** The `-e` lines keep the order of the updates: those of later pages follow
      those of earlier ones. */
  lemma {:induction false} StrikeLinesAppend(us: seq<Update>, vs: seq<Update>)
    ensures StrikeLines(us + vs) == StrikeLines(us) + StrikeLines(vs)
    decreases |vs|
  {
    if vs == [] {
      assert us + vs == us;
    } else {
      var init := vs[..|vs| - 1];
      StrikeLinesAppend(us, init);
      assert (us + vs)[..|us + vs| - 1] == us + init;
    }
  }

  /** `num` only ever grows. */
  lemma {:induction false} CountGrows(us: seq<Update>, vs: seq<Update>)
    ensures StrickenCount(us) <= StrickenCount(us + vs)
    decreases |vs|
  {
    if vs != [] {
      var init := vs[..|vs| - 1];
      CountGrows(us, init);
      assert (us + vs)[..|us + vs| - 1] == us + init;
      assert StrickenCount(us + vs) >= StrickenCount(us + init);
    } else {
      assert us + vs == us;
    }
  }

  /** The shape of the script: the preamble first, then the `-e` lines, as many
      as `num` counts; the target path follows exactly when the loop ended on an
      empty page, and otherwise the error is reported and nothing follows the
      `-e` lines. */
  lemma ScriptShape(forFile: Option<string>, pages: seq<Page>)
    requires HasStop(pages)
    ensures var r := ScriptRun(forFile, pages);
            var lines := StrikeLines(Fetched(pages));
            && |lines| == StrickenCount(Fetched(pages))
            && |r.chunks| == |lines| + (if r.failure == None then 2 else 1)
            && r.chunks[..|lines| + 1] == [Line(Preamble)] + lines
            && (r.failure == None <==> pages[StopIndex(pages)].Ok?)
            && (r.failure == None ==> r.chunks[|lines| + 1] == Line(ArgText(forFile)))
            && (r.failure != None ==> r.failure == Some(pages[StopIndex(pages)].error))
  {
    CountMatchesLines(Fetched(pages));
  }

  /** Three updates a1, a2, a3 of which a1 and a3 are retracted, on one page
      followed by an empty one: two `-e` lines, then the target path, and a
      count of two. */
  lemma ThreeUpdatesExample(u1: Update, u2: Update, u3: Update)
    requires u1.id == Str("a1") && u1.flag == Bool(true)
    requires u2.id == Str("a2") && u2.flag == Bool(false)
    requires u3.id == Str("a3") && u3.flag == Bool(true)
    ensures var pages := [Ok([u1, u2, u3]), Ok([])];
            HasStop(pages) &&
            ScriptRun(Some("out.html"), pages) ==
              Run([Line(Preamble), Line(StrikeCommand(Str("a1"))), Line(StrikeCommand(Str("a3"))),
                   Line("out.html")], None) &&
            StrickenCount(Fetched(pages)) == 2
  {
    OnePageThenEmpty([u1, u2, u3]);
    ThreeUpdatesLines(u1, u2, u3);
  }

  /** One page of updates followed by an empty page: the loop sees that page. */
  lemma OnePageThenEmpty(us: seq<Update>)
    requires us != []
    ensures var pages := [Ok(us), Ok([])];
            HasStop(pages) && StopIndex(pages) == 1 && Fetched(pages) == us
  {
    var pages: seq<Page> := [Ok(us), Ok([])];
    assert Stops(pages[1]);
    assert pages[..1] == [Ok(us)];
    FlattenSnoc(pages, 0);
    assert pages[..0] == [];
  }

  lemma ThreeUpdatesLines(u1: Update, u2: Update, u3: Update)
    requires u1.flag == Bool(true) && u2.flag == Bool(false) && u3.flag == Bool(true)
    ensures StrikeLines([u1, u2, u3]) == [Line(StrikeCommand(u1.id)), Line(StrikeCommand(u3.id))]
    ensures StrickenCount([u1, u2, u3]) == 2
  {
    var us := [u1, u2, u3];
    assert Stricken(u1) && !Stricken(u2) && Stricken(u3);
    assert us[..2] == [u1, u2] && [u1, u2][..1] == [u1] && [u1][..0] == [];
    assert StrikeLines([u1]) == [Line(StrikeCommand(u1.id))];
    assert StrikeLines([u1, u2]) == [Line(StrikeCommand(u1.id))];
    assert StrickenCount([u1]) == 1;
    assert StrickenCount([u1, u2]) == 1;
  }
}
