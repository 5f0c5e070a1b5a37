/** The display label derived from a channel info string such as
    `1.0.4_Cy3_iba1`. The same split-and-rejoin rule appears in the zarr
    writer, in the metadata merge and in the channel update helper. */
module ChannelLabels {
  import opened Text

  /** Fields 1.. of `info.split('_')`, re-joined with `_`; the whole string
      when it has no underscore. */
  function DisplayLabel(info: string): string {
    var parts := Split(info, '_');
    if |parts| == 2 then parts[1]
    else if |parts| >= 3 then parts[1] + "_" + Join(parts[2..], '_')
    else info
  }

  /** The label is the text after the first underscore, or the whole string
      when there is none. */
  lemma DisplayLabelAfterFirstUnderscore(info: string)
    ensures '_' !in info ==> DisplayLabel(info) == info
    ensures '_' in info ==> DisplayLabel(info) == info[IndexOf(info, '_') + 1..]
  {
    SplitSingle(info, '_');
    if '_' in info {
      var k := IndexOf(info, '_');
      var rest := info[k + 1..];
      assert Split(info, '_') == [info[..k]] + Split(rest, '_');
      LabelOfFields(info, info[..k], Split(rest, '_'));
      JoinSplit(rest, '_');
    }
  }

  /** When the split is a first field followed by others, the label joins
      the others. */
  lemma LabelOfFields(info: string, head: string, tail: seq<string>)
    requires Split(info, '_') == [head] + tail && |tail| >= 1
    ensures DisplayLabel(info) == Join(tail, '_')
  {
    var parts := Split(info, '_');
    assert parts[1] == tail[0];
    if |tail| >= 2 {
      assert parts[2..] == tail[1..];
    }
  }

  /** A label never grows, and the label of a label-free string is itself. */
  lemma DisplayLabelShorter(info: string)
    ensures |DisplayLabel(info)| <= |info|
    ensures |DisplayLabel(info)| == |info| <==> '_' !in info
  {
    DisplayLabelAfterFirstUnderscore(info);
  }

  /** Labels of the strings the directory scan produces. */
  lemma DisplayLabelOfMarkerInfo()
    ensures DisplayLabel("1.0.4_Cy3_iba1") == "Cy3_iba1"
  {
    var round, rest := "1.0.4", "Cy3_iba1";
    assert "1.0.4_Cy3_iba1" == round + "_" + rest;
    DisplayLabelOfInfo(round, rest);
  }

  lemma DisplayLabelOfDapiInfo()
    ensures DisplayLabel("1.0.4_DAPI") == "DAPI"
  {
    var round, rest := "1.0.4", "DAPI";
    assert "1.0.4_DAPI" == round + "_" + rest;
    DisplayLabelOfInfo(round, rest);
  }

  /** An info string `round_rest` whose round has no underscore is shown as
      `rest`. */
  lemma DisplayLabelOfInfo(round: string, rest: string)
    requires '_' !in round
    ensures DisplayLabel(round + "_" + rest) == rest
  {
    var info := round + "_" + rest;
    DisplayLabelAfterFirstUnderscore(info);
    assert info[..|round|] == round;
    assert info[|round|] == '_';
    assert IndexOf(info, '_') == |round|;
    assert info[|round| + 1..] == rest;
  }
}
