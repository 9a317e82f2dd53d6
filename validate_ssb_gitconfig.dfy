/**
 * Validation of a local `.gitconfig` against the recommended file for the
 * detected platform. Both texts are split into lines on `"\n"`; identical
 * line lists pass, and otherwise the local lines that occur nowhere in the
 * recommended file must be exactly a `[user]` header, a name line and an
 * email line. Raw lines are compared: nothing is parsed into sections or keys.
 */
module ValidateSsbGitconfig {
  import opened Wrappers
  import opened FileErrors
  import opened PyText
  import opened SsbGitconfig

  /**
   * The package resource holding the recommended configuration for a
   * platform: a file under `recommended/` whose name stands for that platform.
   */
  function RecommendedConfigPath(n: PlatformName): (path: string)
    ensures StartsWith(path, "recommended/")
    ensures ConfigFileLabel(path[|"recommended/"|..]) == Some(n)
  {
    "recommended/" + ConfigFileName(n)
  }

  /**
   * `[line for line in local if line not in reference]`: the local lines
   * that occur nowhere in the reference, in order and with repetitions.
   */
  function Residue(local: seq<string>, reference: seq<string>): (rest: seq<string>)
    ensures |rest| <= |local|
  {
    if local == [] then []
    else
      var tail := Residue(local[1..], reference);
      if local[0] in reference then tail else [local[0]] + tail
  }

  /** A line is in the residue iff the local file has it and the reference does not. */
  lemma {:induction false} ResidueMembers(local: seq<string>, reference: seq<string>)
    ensures forall x :: x in Residue(local, reference) <==> x in local && x !in reference
    decreases |local|
  {
    if local != [] {
      ResidueMembers(local[1..], reference);
      assert local == [local[0]] + local[1..];
    }
  }

  /** Local lines all absent from the reference are kept whole. */
  lemma {:induction false} ResidueOfAbsentLines(local: seq<string>, reference: seq<string>)
    requires forall k :: 0 <= k < |local| ==> local[k] !in reference
    ensures Residue(local, reference) == local
    decreases |local|
  {
    if local != [] {
      ResidueOfAbsentLines(local[1..], reference);
      assert local == [local[0]] + local[1..];
    }
  }

  /** Local lines all present in the reference leave nothing. */
  lemma {:induction false} ResidueOfPresentLines(local: seq<string>, reference: seq<string>)
    requires forall k :: 0 <= k < |local| ==> local[k] in reference
    ensures Residue(local, reference) == []
    decreases |local|
  {
    if local != [] {
      ResidueOfPresentLines(local[1..], reference);
    }
  }

  /**
   * The residue keeps the order of the local lines and, for each line the
   * reference lacks, every one of its repetitions.
   */
  lemma {:induction false} ResidueKeepsOrderAndRepetitions(local: seq<string>, reference: seq<string>)
    ensures IsSubsequence(Residue(local, reference), local)
    ensures forall x :: multiset(Residue(local, reference))[x] == if x in reference then 0 else multiset(local)[x]
    decreases |local|
  {
    if local != [] {
      ResidueKeepsOrderAndRepetitions(local[1..], reference);
      var tail := Residue(local[1..], reference);
      assert local == [local[0]] + local[1..];
      if local[0] in reference {
        assert IsSubsequence(tail, local) by {
          if tail != [] {
            assert IsSubsequence(tail, local[1..]);
          }
        }
      } else {
        assert ([local[0]] + tail)[1..] == tail;
      }
    }
  }

  /**
   * `_verify_configuration_difference`: exactly three residual lines, the
   * first containing `[user]`, the second a tab-indented `name =`, the third
   * a tab-indented `email =`, each by substring.
   */
  function VerifyConfigurationDifference(rest: seq<string>): (ok: bool)
    ensures ok <==>
              && |rest| == 3
              && Occurs("[user]", rest[0])
              && Occurs("\tname =", rest[1])
              && Occurs("\temail =", rest[2])
  {
    if |rest| != 3 then false
    else Contains(rest[0], "[user]") && Contains(rest[1], "\tname =") && Contains(rest[2], "\temail =")
  }

  /**
   * `_validate_platform_git_config`, with the platform's name, whether the
   * local file exists, the recommended text for that name (the contents of
   * the resource at `RecommendedConfigPath(platform)`) and the local text
   * given as inputs. An unsupported platform is rejected before the local
   * file is looked at; a missing local file on a supported platform is a
   * `FileExistsError`.
   */
  function ValidatePlatformGitConfig(
    gitConfigPath: string,
    platform: PlatformName,
    localExists: bool,
    recommended: string,
    local: string): (r: Result<bool, FileError>)
    ensures platform.IsUnsupported() ==> r == Success(false)
    ensures platform.IsSupported() && !localExists ==> r == Failure(FileMissing(gitConfigPath))
    ensures platform.IsSupported() && localExists ==>
              && r.Success?
              && (r.value <==>
                    || local == recommended
                    || VerifyConfigurationDifference(Residue(Split(local, '\n'), Split(recommended, '\n'))))
  {
    if platform.IsUnsupported() then Success(false)
    else if !localExists then Failure(FileMissing(gitConfigPath))
    else
      var ssbConfigLines := Split(recommended, '\n');
      var localConfigLines := Split(local, '\n');
      if ssbConfigLines == localConfigLines then Success(true)
      else Success(VerifyConfigurationDifference(Residue(localConfigLines, ssbConfigLines)))
  }

  /** The missing-file error carries the path in its message. */
  lemma MissingFileMessage(recommended: string, local: string)
    ensures var r := ValidatePlatformGitConfig("fake/file/path/no_file.fake", Dapla, false, recommended, local);
            && r == Failure(FileMissing("fake/file/path/no_file.fake"))
            && r.error.Message() == "File: " + "fake/file/path/no_file.fake" + " does not exist!"
  {
    assert Dapla.IsSupported();
  }

  /** Every supported platform's recommended file validates against itself. */
  lemma RecommendedFileValidates(gitConfigPath: string, platform: PlatformName, recommended: string)
    ensures ValidatePlatformGitConfig(gitConfigPath, platform, true, recommended, recommended)
            == Success(platform.IsSupported())
  {
  }

  /** The residue of a concatenation is the concatenation of the residues. */
  lemma {:induction false} ResidueAppend(a: seq<string>, b: seq<string>, reference: seq<string>)
    ensures Residue(a + b, reference) == Residue(a, reference) + Residue(b, reference)
    decreases |a|
  {
    if a != [] {
      var ab := a + b;
      assert ab != [] && ab[0] == a[0] && ab[1..] == a[1..] + b;
      ResidueAppend(a[1..], b, reference);
      var head := if a[0] in reference then [] else [a[0]];
      assert Residue(ab, reference) == head + Residue(a[1..] + b, reference);
      assert Residue(a, reference) == head + Residue(a[1..], reference);
      assert head + (Residue(a[1..], reference) + Residue(b, reference))
          == (head + Residue(a[1..], reference)) + Residue(b, reference);
    } else {
      assert a + b == b;
    }
  }

  /**
   * The residue only asks, of each local line, whether the reference holds
   * it: two references that agree on the local lines leave the same residue.
   */
  lemma {:induction false} ResidueAgrees(local: seq<string>, ref1: seq<string>, ref2: seq<string>)
    requires forall k :: 0 <= k < |local| ==> (local[k] in ref1 <==> local[k] in ref2)
    ensures Residue(local, ref1) == Residue(local, ref2)
    decreases |local|
  {
    if local != [] {
      ResidueAgrees(local[1..], ref1, ref2);
    }
  }

  /**
   * Once the line lists differ, the verdict depends on the residue alone:
   * reference lines that the local file does not hold, wherever they are,
   * do not affect it.
   */
  lemma ReferenceLinesMissingLocallyIgnored(
    gitConfigPath: string,
    platform: PlatformName,
    local: string,
    rec1: string,
    rec2: string)
    requires local != rec1 && local != rec2
    requires forall x :: x in Split(local, '\n') ==> (x in Split(rec1, '\n') <==> x in Split(rec2, '\n'))
    ensures ValidatePlatformGitConfig(gitConfigPath, platform, true, rec1, local)
            == ValidatePlatformGitConfig(gitConfigPath, platform, true, rec2, local)
  {
    ResidueAgrees(Split(local, '\n'), Split(rec1, '\n'), Split(rec2, '\n'));
  }

  /**
   * Lines appended to the recommended file decide the verdict alone: the
   * file passes exactly when they form the three-line user block, so a
   * partial user block or further settings fail.
   */
  lemma AppendedLinesDecide(
    gitConfigPath: string,
    platform: PlatformName,
    recLines: seq<string>,
    extra: seq<string>)
    requires platform.IsSupported()
    requires |recLines| >= 1 && extra != []
    requires SeparatorFree(recLines + extra, '\n')
    requires forall k :: 0 <= k < |extra| ==> extra[k] !in recLines
    ensures ValidatePlatformGitConfig(gitConfigPath, platform, true, Join(recLines, '\n'), Join(recLines + extra, '\n'))
            == Success(VerifyConfigurationDifference(extra))
  {
    assert SeparatorFree(recLines, '\n') by {
      forall k | 0 <= k < |recLines| ensures '\n' !in recLines[k] {
        assert recLines[k] == (recLines + extra)[k];
      }
    }
    SplitJoin(recLines, '\n');
    SplitJoin(recLines + extra, '\n');
    assert |recLines + extra| != |recLines|;
    ResidueAppend(recLines, extra, recLines);
    ResidueOfPresentLines(recLines, recLines);
    ResidueOfAbsentLines(extra, recLines);
  }

  /**
   * Lines deleted from the recommended file go undetected: a local file
   * made of any recommended lines followed by a user block passes, down to
   * the user block alone.
   */
  lemma DeletedLinesUndetected(
    gitConfigPath: string,
    platform: PlatformName,
    recLines: seq<string>,
    kept: seq<string>,
    user: seq<string>)
    requires platform.IsSupported()
    requires |recLines| >= 1 && SeparatorFree(recLines, '\n') && SeparatorFree(kept + user, '\n')
    requires forall k :: 0 <= k < |kept| ==> kept[k] in recLines
    requires forall k :: 0 <= k < |user| ==> user[k] !in recLines
    requires VerifyConfigurationDifference(user)
    ensures ValidatePlatformGitConfig(gitConfigPath, platform, true, Join(recLines, '\n'), Join(kept + user, '\n'))
            == Success(true)
  {
    SplitJoin(recLines, '\n');
    SplitJoin(kept + user, '\n');
    ResidueAppend(kept, user, recLines);
    ResidueOfPresentLines(kept, recLines);
    ResidueOfAbsentLines(user, recLines);
  }

  /** An empty local file fails against any non-empty recommended file. */
  lemma EmptyFileRejected(gitConfigPath: string, platform: PlatformName, recommended: string)
    requires platform.IsSupported() && recommended != ""
    ensures ValidatePlatformGitConfig(gitConfigPath, platform, true, recommended, "") == Success(false)
  {
    assert Split("", '\n') == [""];
  }

  /**
   * Deleting recommended lines without adding the user block is caught: a
   * local file whose lines all occur in the recommended file, but which
   * differs from it, leaves an empty residue and fails.
   */
  lemma DeletedLinesAloneRejected(
    gitConfigPath: string,
    platform: PlatformName,
    recLines: seq<string>,
    kept: seq<string>)
    requires platform.IsSupported()
    requires |recLines| >= 1 && SeparatorFree(recLines, '\n')
    requires |kept| >= 1 && SeparatorFree(kept, '\n')
    requires forall k :: 0 <= k < |kept| ==> kept[k] in recLines
    requires kept != recLines
    ensures ValidatePlatformGitConfig(gitConfigPath, platform, true, Join(recLines, '\n'), Join(kept, '\n'))
            == Success(false)
  {
    SplitJoin(recLines, '\n');
    SplitJoin(kept, '\n');
    ResidueOfPresentLines(kept, recLines);
  }

  /**
   * As `AppendedLinesDecide`, for files that end in a newline as git writes
   * them: `split` then yields a final empty piece in both texts, and the
   * non-empty lines appended after the recommended file's last newline
   * decide the verdict alone.
   */
  lemma AppendedLinesDecideTerminated(
    gitConfigPath: string,
    platform: PlatformName,
    recLines: seq<string>,
    extra: seq<string>)
    requires platform.IsSupported()
    requires extra != []
    requires SeparatorFree(recLines + extra, '\n')
    requires forall k :: 0 <= k < |extra| ==> extra[k] != "" && extra[k] !in recLines
    ensures ValidatePlatformGitConfig(gitConfigPath, platform, true,
                                      Join(recLines + [""], '\n'), Join(recLines + extra + [""], '\n'))
            == Success(VerifyConfigurationDifference(extra))
  {
    var reference := recLines + [""];
    var local := recLines + extra + [""];
    assert SeparatorFree(reference, '\n') by {
      forall k | 0 <= k < |reference| ensures '\n' !in reference[k] {
        if k < |recLines| {
          assert reference[k] == (recLines + extra)[k];
        }
      }
    }
    assert SeparatorFree(local, '\n') by {
      forall k | 0 <= k < |local| ensures '\n' !in local[k] {
        if k < |recLines + extra| {
          assert local[k] == (recLines + extra)[k];
        }
      }
    }
    SplitJoin(reference, '\n');
    SplitJoin(local, '\n');
    assert |local| != |reference|;
    ResidueAppend(recLines + extra, [""], reference);
    ResidueAppend(recLines, extra, reference);
    ResidueOfPresentLines(recLines, reference);
    ResidueOfPresentLines([""], reference);
    ResidueOfAbsentLines(extra, reference);
  }

  /**
   * As `DeletedLinesUndetected`, for files that end in a newline: any
   * recommended lines followed by a user block and a final newline pass
   * against a newline-terminated recommended file.
   */
  lemma DeletedLinesUndetectedTerminated(
    gitConfigPath: string,
    platform: PlatformName,
    recLines: seq<string>,
    kept: seq<string>,
    user: seq<string>)
    requires platform.IsSupported()
    requires SeparatorFree(recLines, '\n') && SeparatorFree(kept + user, '\n')
    requires forall k :: 0 <= k < |kept| ==> kept[k] in recLines
    requires forall k :: 0 <= k < |user| ==> user[k] !in recLines
    requires VerifyConfigurationDifference(user)
    ensures ValidatePlatformGitConfig(gitConfigPath, platform, true,
                                      Join(recLines + [""], '\n'), Join(kept + user + [""], '\n'))
            == Success(true)
  {
    var reference := recLines + [""];
    var local := kept + user + [""];
    assert SeparatorFree(reference, '\n') by {
      forall k | 0 <= k < |reference| ensures '\n' !in reference[k] {
        if k < |recLines| {
          assert reference[k] == recLines[k];
        }
      }
    }
    assert SeparatorFree(local, '\n') by {
      forall k | 0 <= k < |local| ensures '\n' !in local[k] {
        if k < |kept + user| {
          assert local[k] == (kept + user)[k];
        }
      }
    }
    SplitJoin(reference, '\n');
    SplitJoin(local, '\n');
    forall k | 0 <= k < |user| ensures user[k] !in reference {
      assert user[k] != "" by {
        if k == 0 {
          var i :| MatchesAt(user[0], "[user]", i);
        } else if k == 1 {
          var i :| MatchesAt(user[1], "\tname =", i);
        } else {
          var i :| MatchesAt(user[2], "\temail =", i);
        }
      }
    }
    ResidueAppend(kept + user, [""], reference);
    ResidueAppend(kept, user, reference);
    ResidueOfPresentLines(kept, reference);
    ResidueOfPresentLines([""], reference);
    ResidueOfAbsentLines(user, reference);
  }
}
