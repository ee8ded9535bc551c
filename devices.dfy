/**
 * Device presentation: the text the device list shows for a recorder and the
 * comma-separated list of profiles a recorder supports.
 */
module Devices {
  import opened Wrappers
  import opened Text

  /** A disc recorder as the device list holds it. */
  datatype Recorder = Recorder(uniqueId: string, volumePaths: seq<string>, productId: string)

  /** `n` copies of `x`. */
  function Repeat(x: string, n: nat): (r: seq<string>)
    ensures |r| == n && forall i :: 0 <= i < n ==> r[i] == x
  {
    seq(n, _ => x)
  }

  /**
   * The label of `DevicesComboBox_Format` as written: the first volume path
   * appended once per volume path, commas between, then ` [<product id>]`.
   * `None` is a recorder with no volume path, where `GetValue(0)` throws.
   * It is the intended label of a recorder whose every path is the first one.
   */
  function DeviceLabel(volumePaths: seq<string>, productId: string): (r: Option<string>)
    ensures r.None? <==> volumePaths == []
    ensures volumePaths != [] && volumePaths[0] != "" ==>
      r == DeviceLabelIntended(Repeat(volumePaths[0], |volumePaths|), productId)
    ensures volumePaths != [] && volumePaths[0] == "" ==> r == Some(" [" + productId + "]")
  {
    if |volumePaths| == 0 then None
    else
      var reps := Repeat(volumePaths[0], |volumePaths|);
      var devicePaths := Join(",", NonEmpty(reps));
      assert volumePaths[0] == "" ==> devicePaths + " [" + productId + "]" == " [" + productId + "]" by {
        if volumePaths[0] == "" {
          NonEmptyOfBlanks(reps);
          assert devicePaths == "";
        }
      }
      assert volumePaths[0] != "" ==> NonEmpty(reps) == reps by {
        if volumePaths[0] != "" {
          NonEmptyKeepsAll(reps);
        }
      }
      Some(devicePaths + " [" + productId + "]")
  }

  /** The handler's loop over the recorder's volume paths, proved to produce `DeviceLabel`. */
  method FormatDevice(recorder: Recorder) returns (text: Option<string>)
    ensures text == DeviceLabel(recorder.volumePaths, recorder.productId)
  {
    var volumePaths, productId := recorder.volumePaths, recorder.productId;
    if |volumePaths| == 0 {
      return None;
    }
    var devicePaths := "";
    var volumePath := volumePaths[0];
    for i := 0 to |volumePaths|
      invariant devicePaths == Join(",", NonEmpty(Repeat(volumePath, i)))
    {
      ghost var before := devicePaths;
      if devicePaths != "" {
        devicePaths := devicePaths + ",";
      }
      devicePaths := devicePaths + volumePath;
      AppendStep(volumePath, i, before);
    }
    text := Some(devicePaths + " [" + productId + "]");
  }

  /** One turn of the handler's loop extends the label by one more copy of the path. */
  lemma AppendStep(v: string, i: nat, acc: string)
    requires acc == Join(",", NonEmpty(Repeat(v, i)))
    ensures (if acc != "" then acc + "," else acc) + v == Join(",", NonEmpty(Repeat(v, i + 1)))
  {
    if v == "" {
      AppendBlankStep(i, acc);
    } else {
      AppendPathStep(v, i, acc);
    }
  }

  lemma AppendBlankStep(i: nat, acc: string)
    requires acc == Join(",", NonEmpty(Repeat("", i)))
    ensures acc == "" && Join(",", NonEmpty(Repeat("", i + 1))) == ""
  {
    NonEmptyOfBlanks(Repeat("", i));
    NonEmptyOfBlanks(Repeat("", i + 1));
  }

  lemma AppendPathStep(v: string, i: nat, acc: string)
    requires v != "" && acc == Join(",", NonEmpty(Repeat(v, i)))
    ensures (if acc != "" then acc + "," else acc) + v == Join(",", NonEmpty(Repeat(v, i + 1)))
  {
    var reps := Repeat(v, i);
    NonEmptyKeepsAll(reps);
    NonEmptyKeepsAll(Repeat(v, i + 1));
    assert Repeat(v, i + 1) == reps + [v];
    JoinEmptyIff(",", reps);
    JoinSnoc(",", reps, v);
  }

  lemma NonEmptyOfBlanks(names: seq<string>)
    requires forall i :: 0 <= i < |names| ==> names[i] == ""
    ensures NonEmpty(names) == []
  {
    assert forall x :: x !in NonEmpty(names);
  }

  /**
   * What the label lists: for a recorder whose first path is non-empty and
   * holds no comma, splitting the device part at commas gives that first path
   * once per volume path; the other paths never appear.
   */
  lemma DeviceLabelRepeatsFirstPath(volumePaths: seq<string>, productId: string)
    requires |volumePaths| > 0 && volumePaths[0] != "" && ',' !in volumePaths[0]
    ensures DeviceLabel(volumePaths, productId).Some?
    ensures exists devicePaths ::
      DeviceLabel(volumePaths, productId) == Some(devicePaths + " [" + productId + "]") &&
      Split(devicePaths, ',') == Repeat(volumePaths[0], |volumePaths|)
  {
    var first := volumePaths[0];
    var reps := Repeat(first, |volumePaths|);
    assert NonEmpty(reps) == reps by {
      NonEmptyKeepsAll(reps);
    }
    SplitJoin(reps, ',');
  }

  lemma {:induction false} NonEmptyKeepsAll(names: seq<string>)
    requires forall i :: 0 <= i < |names| ==> names[i] != ""
    ensures NonEmpty(names) == names
  {
    if |names| > 0 {
      NonEmptyKeepsAll(names[..|names| - 1]);
      assert names[..|names| - 1] + [names[|names| - 1]] == names;
    }
  }

  /**
   * The paths from the first non-empty one on: the empty paths before it are
   * dropped and the rest is kept as it is.
   */
  function DropLeadingBlanks(paths: seq<string>): (rest: seq<string>)
    ensures rest == [] || rest[0] != ""
    decreases |paths|
  {
    if |paths| == 0 then []
    else if paths[0] == "" then DropLeadingBlanks(paths[1..])
    else paths
  }

  /** What is kept is a suffix of the paths, and everything dropped is empty. */
  lemma {:induction false} DropLeadingBlanksSuffix(paths: seq<string>)
    ensures var rest := DropLeadingBlanks(paths);
      |rest| <= |paths| && rest == paths[|paths| - |rest|..] &&
      forall i :: 0 <= i < |paths| - |rest| ==> paths[i] == ""
    decreases |paths|
  {
    if |paths| > 0 && paths[0] == "" {
      DropLeadingBlanksSuffix(paths[1..]);
    }
  }

  lemma {:induction false} DropLeadingBlanksSnoc(paths: seq<string>, x: string)
    ensures DropLeadingBlanks(paths + [x]) ==
      if DropLeadingBlanks(paths) != [] then DropLeadingBlanks(paths) + [x]
      else if x == "" then [] else [x]
    decreases |paths|
  {
    if |paths| == 0 {
      assert paths + [x] == [x];
      assert DropLeadingBlanks([x][1..]) == [];
    } else {
      assert (paths + [x])[1..] == paths[1..] + [x];
      if paths[0] == "" {
        DropLeadingBlanksSnoc(paths[1..], x);
      }
    }
  }

  /**
   * The label as evidently intended: the handler's loop appending the loop
   * variable `volPath`. The emptiness test on the text built so far skips the
   * empty paths before the first non-empty one; every later path, empty or
   * not, is appended after a comma. When no path holds a comma, splitting the
   * device part at commas gives back the paths from the first non-empty one
   * on, in order.
   */
  function DeviceLabelIntended(volumePaths: seq<string>, productId: string): (r: Option<string>)
    ensures r.None? <==> volumePaths == []
    ensures r.Some? && (forall i :: 0 <= i < |volumePaths| ==> ',' !in volumePaths[i]) ==>
      exists devicePaths :: r.value == devicePaths + " [" + productId + "]" &&
        (DropLeadingBlanks(volumePaths) == [] ==> devicePaths == "") &&
        (DropLeadingBlanks(volumePaths) != [] ==> Split(devicePaths, ',') == DropLeadingBlanks(volumePaths))
  {
    if |volumePaths| == 0 then None
    else
      var rest := DropLeadingBlanks(volumePaths);
      var devicePaths := Join(",", rest);
      DropLeadingBlanksSuffix(volumePaths);
      assert (forall i :: 0 <= i < |volumePaths| ==> ',' !in volumePaths[i]) && rest != [] ==>
        Split(devicePaths, ',') == rest by {
        if (forall i :: 0 <= i < |volumePaths| ==> ',' !in volumePaths[i]) && rest != [] {
          assert forall i :: 0 <= i < |rest| ==> ',' !in rest[i] by {
            forall i | 0 <= i < |rest| ensures ',' !in rest[i] {
              assert rest[i] == volumePaths[|volumePaths| - |rest| + i];
            }
          }
          SplitJoin(rest, ',');
        }
      }
      Some(devicePaths + " [" + productId + "]")
  }

  /** The handler's loop with `volPath` appended, proved to produce `DeviceLabelIntended`. */
  method FormatDeviceIntended(recorder: Recorder) returns (text: Option<string>)
    ensures text == DeviceLabelIntended(recorder.volumePaths, recorder.productId)
  {
    var volumePaths, productId := recorder.volumePaths, recorder.productId;
    if |volumePaths| == 0 {
      return None;
    }
    var devicePaths := "";
    for i := 0 to |volumePaths|
      invariant devicePaths == Join(",", DropLeadingBlanks(volumePaths[..i]))
    {
      var volPath := volumePaths[i];
      ghost var before := devicePaths;
      if devicePaths != "" {
        devicePaths := devicePaths + ",";
      }
      devicePaths := devicePaths + volPath;
      IntendedStep(volumePaths, i, before);
    }
    assert volumePaths[..|volumePaths|] == volumePaths;
    text := Some(devicePaths + " [" + productId + "]");
  }

  /** One turn of the fixed loop appends the next path, after a comma once the text is non-empty. */
  lemma IntendedStep(volumePaths: seq<string>, i: nat, acc: string)
    requires i < |volumePaths| && acc == Join(",", DropLeadingBlanks(volumePaths[..i]))
    ensures (if acc != "" then acc + "," else acc) + volumePaths[i] == Join(",", DropLeadingBlanks(volumePaths[..i + 1]))
  {
    var prefix, volPath := volumePaths[..i], volumePaths[i];
    assert volumePaths[..i + 1] == prefix + [volPath];
    var rest := DropLeadingBlanks(prefix);
    DropLeadingBlanksSnoc(prefix, volPath);
    if rest != [] {
      JoinNonEmptyHead(",", rest);
      JoinSnoc(",", rest, volPath);
    } else {
      assert acc == "";
    }
  }

  /** A recorder mounted at `D:\` and `E:\` is shown as `D:\,D:\ [...]`, not `D:\,E:\ [...]`. */
  lemma DeviceLabelDropsOtherPaths()
    ensures DeviceLabel(["D:\\", "E:\\"], "BD") == Some("D:\\,D:\\ [BD]")
    ensures DeviceLabelIntended(["D:\\", "E:\\"], "BD") == Some("D:\\,E:\\ [BD]")
  {
    var reps := Repeat("D:\\", 2);
    assert reps == ["D:\\", "D:\\"];
    NonEmptyKeepsAll(reps);
    assert reps[..1] == ["D:\\"];
    assert Join(",", reps) == "D:\\" + "," + "D:\\";
    assert "D:\\" + "," + "D:\\" + " [" + "BD" + "]" == "D:\\,D:\\ [BD]";
    var paths := ["D:\\", "E:\\"];
    assert DropLeadingBlanks(paths) == paths;
    assert paths[..1] == ["D:\\"];
    assert Join(",", paths) == "D:\\" + "," + "E:\\";
    assert "D:\\" + "," + "E:\\" + " [" + "BD" + "]" == "D:\\,E:\\ [BD]";
  }

  /**
   * Empty paths under the fixed loop: a leading one is skipped (`["", "E:\\"]`
   * gives `E:\\ [BD]`), a later one leaves an empty piece between commas
   * (`["D:\\", "", "E:\\"]` gives `D:\\,,E:\\ [BD]`).
   */
  lemma DeviceLabelIntendedBlankPaths()
    ensures DeviceLabelIntended(["", "E:\\"], "BD") == Some("E:\\ [BD]")
    ensures DeviceLabelIntended(["D:\\", "", "E:\\"], "BD") == Some("D:\\,,E:\\ [BD]")
  {
    var leading := ["", "E:\\"];
    assert leading[1..] == ["E:\\"];
    assert DropLeadingBlanks(leading) == ["E:\\"];
    assert "E:\\" + " [" + "BD" + "]" == "E:\\ [BD]";
    var inner := ["D:\\", "", "E:\\"];
    assert DropLeadingBlanks(inner) == inner;
    assert inner[..2] == ["D:\\", ""];
    assert inner[..2][..1] == ["D:\\"];
    assert Join(",", inner) == "D:\\" + "," + "" + "," + "E:\\";
    assert "D:\\" + "," + "" + "," + "E:\\" + " [" + "BD" + "]" == "D:\\,,E:\\ [BD]";
  }

  /**
   * The profile list `DevicesComboBox_SelectedIndexChanged` builds: the names
   * of the supported profiles, empty names skipped, `", "` between.
   */
  method SupportedMediaTypes(profileNames: seq<string>) returns (text: string)
    ensures text == Join(", ", NonEmpty(profileNames))
  {
    text := "";
    for i := 0 to |profileNames|
      invariant text == Join(", ", NonEmpty(profileNames[..i]))
    {
      var name := profileNames[i];
      assert profileNames[..i + 1] == profileNames[..i] + [name];
      NonEmptySnoc(profileNames[..i], name);
      if name == "" {
        continue;
      }
      JoinEmptyIff(", ", NonEmpty(profileNames[..i]));
      JoinSnoc(", ", NonEmpty(profileNames[..i]), name);
      if |text| > 0 {
        text := text + ", ";
      }
      text := text + name;
    }
    assert profileNames[..|profileNames|] == profileNames;
  }

  /** The profile list is empty exactly when every profile name is empty. */
  lemma SupportedMediaTypesEmptyIff(profileNames: seq<string>)
    ensures Join(", ", NonEmpty(profileNames)) == "" <==> forall i :: 0 <= i < |profileNames| ==> profileNames[i] == ""
  {
    JoinEmptyIff(", ", NonEmpty(profileNames));
    if NonEmpty(profileNames) == [] {
      forall i | 0 <= i < |profileNames| ensures profileNames[i] == "" {
        assert profileNames[i] in profileNames;
      }
    } else {
      assert NonEmpty(profileNames)[0] in NonEmpty(profileNames);
    }
  }
}
