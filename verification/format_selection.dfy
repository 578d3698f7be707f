/** `getBestFormat` of nabu.misc.sound.Services: a greedy single pass over the
    capture formats of every target line info, in iteration order. The first
    format is taken unconditionally; a later one replaces the running best only
    if it has at least `minChannels` channels and either is ULAW where the best
    is not, or has strictly fewer channels. */
module FormatSelection {
  import opened Options

  /** The encodings of javax.sound.sampled.AudioFormat.Encoding; `Other` is any
      encoding object that is not one of the five constants. */
  datatype Encoding = PcmSigned | PcmUnsigned | PcmFloat | Ulaw | Alaw | Other(name: string)

  /** The part of an AudioFormat that the selection looks at. */
  datatype AudioFormat = AudioFormat(channels: int, encoding: Encoding)

  /** The body of the inner loop: the best after looking at `possible`. */
  function Step(bestMatch: Option<AudioFormat>, possible: AudioFormat, minChannels: int): (r: Option<AudioFormat>)
    ensures r.Some?
    ensures r == bestMatch || r == Some(possible)
    ensures bestMatch.Some? && possible.channels < minChannels ==> r == bestMatch
  {
    if bestMatch.None? then Some(possible)
    else if possible.channels >= minChannels then
      if possible.encoding == Ulaw && bestMatch.value.encoding != Ulaw then Some(possible)
      else if possible.channels < bestMatch.value.channels then Some(possible)
      else bestMatch
    else bestMatch
  }

  /** The fold of `Step` over `formats`, from the front. */
  function Select(formats: seq<AudioFormat>, minChannels: int): (r: Option<AudioFormat>)
    ensures r.None? <==> formats == []
    ensures r.Some? ==> r.value in formats
  {
    if formats == [] then None
    else Step(Select(formats[..|formats| - 1], minChannels), formats[|formats| - 1], minChannels)
  }

  /** The formats of all line infos, line info by line info. */
  function Flatten(lineInfos: seq<seq<AudioFormat>>): seq<AudioFormat>
  {
    if lineInfos == [] then []
    else Flatten(lineInfos[..|lineInfos| - 1]) + lineInfos[|lineInfos| - 1]
  }

  /** A format is in the flattened list exactly when some line info lists it. */
  lemma {:induction false} FlattenMembers(lineInfos: seq<seq<AudioFormat>>)
    ensures forall f :: f in Flatten(lineInfos) <==> ListedIn(f, lineInfos)
  {
    if lineInfos != [] {
      var init := lineInfos[..|lineInfos| - 1];
      var last := lineInfos[|lineInfos| - 1];
      FlattenMembers(init);
      assert lineInfos == init + [last];
      forall f ensures f in Flatten(lineInfos) <==> ListedIn(f, lineInfos) {
        if ListedIn(f, lineInfos) {
          var l :| l in lineInfos && f in l;
          if l != last {
            assert l in init;
          }
        }
      }
    }
  }

  /** No line info lists a format. */
  predicate ListsNoFormat(lineInfos: seq<seq<AudioFormat>>)
  {
    forall l :: l in lineInfos ==> l == []
  }

  /** Some line info lists format f. */
  predicate ListedIn(f: AudioFormat, lineInfos: seq<seq<AudioFormat>>)
  {
    exists l :: l in lineInfos && f in l
  }

  /** There is nothing to select from exactly when every line info lists no format. */
  lemma FlattenEmpty(lineInfos: seq<seq<AudioFormat>>)
    ensures Flatten(lineInfos) == [] <==> ListsNoFormat(lineInfos)
  {
    FlattenMembers(lineInfos);
    forall l | l in lineInfos && l != [] ensures Flatten(lineInfos) != [] {
      assert l[0] in l;
      assert l[0] in Flatten(lineInfos);
    }
    if Flatten(lineInfos) != [] {
      assert Flatten(lineInfos)[0] in Flatten(lineInfos);
    }
  }

  /** Java's `getBestFormat(minChannels)`, with the line infos that
      `AudioSystem.getTargetLineInfo` would return passed in, each given by the
      formats it lists; `None` is Java's `null`. */
  method GetBestFormat(lineInfos: seq<seq<AudioFormat>>, minChannels: int) returns (bestMatch: Option<AudioFormat>)
    ensures bestMatch == Select(Flatten(lineInfos), minChannels)
    ensures bestMatch.None? <==> ListsNoFormat(lineInfos)
    ensures bestMatch.Some? ==> ListedIn(bestMatch.value, lineInfos)
  {
    bestMatch := None;
    for i := 0 to |lineInfos|
      invariant bestMatch == Select(Flatten(lineInfos[..i]), minChannels)
    {
      var formats := lineInfos[i];
      ghost var done := Flatten(lineInfos[..i]);
      assert done + formats[..0] == done;
      for j := 0 to |formats|
        invariant bestMatch == Select(done + formats[..j], minChannels)
      {
        var possible := formats[j];
        ghost var previous := bestMatch;
        if bestMatch == None {
          bestMatch := Some(possible);
        } else if possible.channels >= minChannels {
          if possible.encoding == Ulaw && bestMatch.value.encoding != Ulaw {
            bestMatch := Some(possible);
          } else if possible.channels < bestMatch.value.channels {
            bestMatch := Some(possible);
          }
        }
        assert bestMatch == Select(done + formats[..j + 1], minChannels) by {
          assert bestMatch == Step(previous, possible, minChannels);
          SelectAppend(done + formats[..j], possible, minChannels);
          assert done + formats[..j + 1] == (done + formats[..j]) + [possible];
        }
      }
      assert bestMatch == Select(Flatten(lineInfos[..i + 1]), minChannels) by {
        assert formats[..|formats|] == formats;
        FlattenAppend(lineInfos, i);
      }
    }
    assert bestMatch == Select(Flatten(lineInfos), minChannels) by {
      assert lineInfos[..|lineInfos|] == lineInfos;
    }
    SelectFromLineInfos(lineInfos, minChannels);
  }

  /** Selecting over all line infos yields nothing exactly when none lists a
      format, and otherwise a format one of them lists. */
  lemma SelectFromLineInfos(lineInfos: seq<seq<AudioFormat>>, minChannels: int)
    ensures Select(Flatten(lineInfos), minChannels).None? <==> ListsNoFormat(lineInfos)
    ensures Select(Flatten(lineInfos), minChannels).Some? ==>
              ListedIn(Select(Flatten(lineInfos), minChannels).value, lineInfos)
  {
    FlattenEmpty(lineInfos);
    FlattenMembers(lineInfos);
  }

  lemma SelectAppend(formats: seq<AudioFormat>, p: AudioFormat, minChannels: int)
    ensures Select(formats + [p], minChannels) == Step(Select(formats, minChannels), p, minChannels)
  {
    assert (formats + [p])[..|formats|] == formats;
  }

  lemma FlattenAppend(lineInfos: seq<seq<AudioFormat>>, i: nat)
    requires i < |lineInfos|
    ensures Flatten(lineInfos[..i + 1]) == Flatten(lineInfos[..i]) + lineInfos[i]
  {
    assert lineInfos[..i + 1][..i] == lineInfos[..i];
  }

  /** The format at index i may be the result: the first one always, a later
      one only with enough channels. */
  predicate Candidate(f: AudioFormat, i: int, minChannels: int)
  {
    i == 0 || f.channels >= minChannels
  }

  /** The result is the first format or one with at least `minChannels` channels. */
  lemma {:induction false} FirstOrEligible(formats: seq<AudioFormat>, minChannels: int)
    requires formats != []
    ensures Select(formats, minChannels).value == formats[0] ||
            Select(formats, minChannels).value.channels >= minChannels
  {
    if |formats| > 1 {
      var init := formats[..|formats| - 1];
      FirstOrEligible(init, minChannels);
      assert init[0] == formats[0];
    }
  }

  /** A format with fewer than `minChannels` channels never replaces the best. */
  lemma {:induction false} IneligibleNeverReplaces(formats: seq<AudioFormat>, more: seq<AudioFormat>, minChannels: int)
    requires formats != []
    requires forall i :: 0 <= i < |more| ==> more[i].channels < minChannels
    ensures Select(formats + more, minChannels) == Select(formats, minChannels)
  {
    if more != [] {
      var init := more[..|more| - 1];
      IneligibleNeverReplaces(formats, init, minChannels);
      assert (formats + more)[..|formats + more| - 1] == formats + init;
    } else {
      assert formats + more == formats;
    }
  }

  /** The first format is taken even with too few channels, and stays when no
      later format has enough. */
  lemma FirstAdoptedUnconditionally(first: AudioFormat, more: seq<AudioFormat>, minChannels: int)
    requires forall i :: 0 <= i < |more| ==> more[i].channels < minChannels
    ensures Select([first] + more, minChannels) == Some(first)
  {
    IneligibleNeverReplaces([first], more, minChannels);
  }

  /** Step k replaces the best exactly when format k has enough channels and is
      either a switch from a non-ULAW best to ULAW or strictly fewer channels;
      otherwise, in particular on equal channels without such a switch, the
      earlier best is kept. */
  lemma ReplacementRule(formats: seq<AudioFormat>, k: nat, minChannels: int)
    requires 1 <= k < |formats|
    ensures var before := Select(formats[..k], minChannels).value;
            var after := Select(formats[..k + 1], minChannels).value;
            var p := formats[k];
            (p.channels >= minChannels &&
             ((p.encoding == Ulaw && before.encoding != Ulaw) || p.channels < before.channels))
            ==> after == p
    ensures var before := Select(formats[..k], minChannels).value;
            var after := Select(formats[..k + 1], minChannels).value;
            var p := formats[k];
            after != before ==>
              after == p && p.channels >= minChannels &&
              ((p.encoding == Ulaw && before.encoding != Ulaw) || p.channels < before.channels)
  {
    assert formats[..k + 1][..k] == formats[..k];
    assert formats[..k + 1][k] == formats[k];
  }

  /** Without ULAW formats the result has no more channels than any candidate. */
  lemma {:induction false} NoUlawFewestChannels(formats: seq<AudioFormat>, minChannels: int)
    requires formats != []
    requires forall i :: 0 <= i < |formats| ==> formats[i].encoding != Ulaw
    ensures forall j :: 0 <= j < |formats| && Candidate(formats[j], j, minChannels) ==>
              Select(formats, minChannels).value.channels <= formats[j].channels
  {
    var n := |formats|;
    if n > 1 {
      var init, p := formats[..n - 1], formats[n - 1];
      assert formats == init + [p];
      NoUlawFewestChannels(init, minChannels);
      SelectAppend(init, p, minChannels);
      assert forall j :: 0 <= j < n - 1 ==> init[j] == formats[j];
    }
  }

  /** Without ULAW formats the result is the earliest candidate with the fewest
      channels: every candidate before it has more. */
  lemma {:induction false} NoUlawEarliest(formats: seq<AudioFormat>, minChannels: int)
    requires formats != []
    requires forall i :: 0 <= i < |formats| ==> formats[i].encoding != Ulaw
    ensures exists k :: 0 <= k < |formats| && Candidate(formats[k], k, minChannels) &&
              Select(formats, minChannels) == Some(formats[k]) &&
              forall j :: 0 <= j < k && Candidate(formats[j], j, minChannels) ==> formats[j].channels > formats[k].channels
  {
    var n := |formats|;
    if n == 1 {
      assert Candidate(formats[0], 0, minChannels) && Select(formats, minChannels) == Some(formats[0]);
    } else {
      var init, p := formats[..n - 1], formats[n - 1];
      assert formats == init + [p];
      assert forall j :: 0 <= j < n - 1 ==> init[j] == formats[j];
      NoUlawEarliest(init, minChannels);
      NoUlawFewestChannels(init, minChannels);
      SelectAppend(init, p, minChannels);
      var best := Select(init, minChannels).value;
      var k :| 0 <= k < n - 1 && Candidate(init[k], k, minChannels) && Select(init, minChannels) == Some(init[k]) &&
               forall j :: 0 <= j < k && Candidate(init[j], j, minChannels) ==> init[j].channels > init[k].channels;
      if p.channels >= minChannels && p.channels < best.channels {
        assert Select(formats, minChannels) == Some(formats[n - 1]) && Candidate(formats[n - 1], n - 1, minChannels);
      } else {
        assert Select(formats, minChannels) == Some(formats[k]) && Candidate(formats[k], k, minChannels);
      }
    }
  }

  /** Once the best is ULAW it stays ULAW while every later format with enough
      channels is ULAW. */
  lemma {:induction false} UlawKept(formats: seq<AudioFormat>, more: seq<AudioFormat>, minChannels: int)
    requires formats != [] && Select(formats, minChannels).value.encoding == Ulaw
    requires forall i :: 0 <= i < |more| && more[i].channels >= minChannels ==> more[i].encoding == Ulaw
    ensures Select(formats + more, minChannels).value.encoding == Ulaw
  {
    if more != [] {
      var init := more[..|more| - 1];
      UlawKept(formats, init, minChannels);
      assert (formats + more)[..|formats + more| - 1] == formats + init;
      assert (formats + more)[|formats + more| - 1] == more[|more| - 1];
    } else {
      assert formats + more == formats;
    }
  }

  /** A later ULAW format with enough channels makes the result ULAW, unless a
      non-ULAW format with enough channels comes after it. */
  lemma UlawWins(formats: seq<AudioFormat>, k: nat, minChannels: int)
    requires 1 <= k < |formats|
    requires formats[k].encoding == Ulaw && formats[k].channels >= minChannels
    requires forall j :: k < j < |formats| && formats[j].channels >= minChannels ==> formats[j].encoding == Ulaw
    ensures Select(formats, minChannels).value.encoding == Ulaw
  {
    ReplacementRule(formats, k, minChannels);
    var head, tail := formats[..k + 1], formats[k + 1..];
    assert formats == head + tail;
    UlawKept(head, tail, minChannels);
  }

  /** A stereo PCM format followed by a mono ULAW one: ULAW is selected. */
  lemma UlawAfterStereoPcm()
    ensures Select([AudioFormat(2, PcmSigned), AudioFormat(1, Ulaw)], 1) == Some(AudioFormat(1, Ulaw))
  {
    var formats := [AudioFormat(2, PcmSigned), AudioFormat(1, Ulaw)];
    assert formats[..1] == [AudioFormat(2, PcmSigned)];
  }

  /** The result depends on order: two mono formats, whichever comes first wins. */
  lemma OrderDecidesTies()
    ensures Select([AudioFormat(1, PcmSigned), AudioFormat(1, PcmUnsigned)], 1) == Some(AudioFormat(1, PcmSigned))
    ensures Select([AudioFormat(1, PcmUnsigned), AudioFormat(1, PcmSigned)], 1) == Some(AudioFormat(1, PcmUnsigned))
  {
    assert [AudioFormat(1, PcmSigned), AudioFormat(1, PcmUnsigned)][..1] == [AudioFormat(1, PcmSigned)];
    assert [AudioFormat(1, PcmUnsigned), AudioFormat(1, PcmSigned)][..1] == [AudioFormat(1, PcmUnsigned)];
  }

  /** A ULAW best is displaced by a later format with fewer channels, whatever
      its encoding. */
  lemma FewerChannelsDisplaceUlaw()
    ensures Select([AudioFormat(2, Ulaw), AudioFormat(1, PcmSigned)], 1) == Some(AudioFormat(1, PcmSigned))
  {
    assert [AudioFormat(2, Ulaw), AudioFormat(1, PcmSigned)][..1] == [AudioFormat(2, Ulaw)];
  }
}
