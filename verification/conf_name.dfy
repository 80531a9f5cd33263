/**
 * The names of the per-game configuration files: a prefix, the Steam app id
 * and the first six hex digits of a SHA-1 digest of the app id, the DOSBox
 * arguments and a salt. The digest itself is a parameter: any function that
 * yields forty lower-case hex digits.
 */
module ConfName {

  predicate IsLowerHex(c: char)
  {
    '0' <= c <= '9' || 'a' <= c <= 'f'
  }

  predicate AllLowerHex(s: string)
  {
    forall i :: 0 <= i < |s| ==> IsLowerHex(s[i])
  }

  /** `hexdigest()` of a SHA-1 hash: forty lower-case hex digits. */
  type Sha1Hex = s: string | |s| == 40 && AllLowerHex(s)
    witness "0000000000000000000000000000000000000000"

  /** `''.join(args)`. */
  function Join(args: seq<string>): (r: string)
    ensures args == [] ==> r == []
  {
    if args == [] then [] else Join(args[..|args| - 1]) + args[|args| - 1]
  }

  lemma {:induction false} JoinAppend(a: seq<string>, b: seq<string>)
    ensures Join(a + b) == Join(a) + Join(b)
    decreases |b|
  {
    if b == [] {
      assert a + b == a;
    } else {
      assert (a + b)[..|a + b| - 1] == a + b[..|b| - 1];
      JoinAppend(a, b[..|b| - 1]);
    }
  }

  /**
   * `uniq_conf_name_salted(pfx, app_id, args, salt)`: `PFX_APPID_UID.conf`,
   * where `UID` is the first six digits of the digest of the app id, the
   * arguments run together, and the salt.
   */
  function UniqConfNameSalted(sha1: string -> Sha1Hex, pfx: string, appId: string, args: seq<string>, salt: string): (r: string)
    ensures |r| == |pfx| + |appId| + 13
    ensures r[..|pfx|] == pfx && r[|pfx|] == '_'
    ensures r[|pfx| + 1..|pfx| + 1 + |appId|] == appId && r[|pfx| + 1 + |appId|] == '_'
    ensures r[|pfx| + |appId| + 2..|r| - 5] == sha1(appId + Join(args) + salt)[..6]
    ensures AllLowerHex(r[|pfx| + |appId| + 2..|r| - 5])
    ensures r[|r| - 5..] == ".conf"
  {
    var uid := sha1(appId + Join(args) + salt)[..6];
    pfx + "_" + appId + "_" + uid + ".conf"
  }

  /** `uniq_conf_name(app_id, args)`: prefix `boxtron`, salt `v2`. */
  function UniqConfName(sha1: string -> Sha1Hex, appId: string, args: seq<string>): (r: string)
    ensures r == UniqConfNameSalted(sha1, "boxtron", appId, args, "v2")
    ensures r[..8] == "boxtron_"
  {
    UniqConfNameSalted(sha1, "boxtron", appId, args, "v2")
  }

  /** The name depends on the arguments only through their concatenation. */
  lemma NameSeesOnlyJoin(sha1: string -> Sha1Hex, pfx: string, appId: string, a: seq<string>, b: seq<string>, salt: string)
    requires Join(a) == Join(b)
    ensures UniqConfNameSalted(sha1, pfx, appId, a, salt) == UniqConfNameSalted(sha1, pfx, appId, b, salt)
  {
  }

  /** Splitting one argument in two, or joining two, leaves the name as it is. */
  lemma SplitArgumentSameName(sha1: string -> Sha1Hex, appId: string, pre: seq<string>, x: string, y: string, post: seq<string>)
    ensures UniqConfName(sha1, appId, pre + [x + y] + post) == UniqConfName(sha1, appId, pre + [x, y] + post)
  {
    JoinAppend(pre + [x + y], post);
    JoinAppend(pre + [x, y], post);
    JoinAppend(pre, [x + y]);
    JoinAppend(pre, [x, y]);
    assert Join([x, y]) == Join([x]) + y;
    assert Join([x]) == x by {
      assert [x][..0] == [];
    }
    assert Join([x + y]) == x + y by {
      assert [x + y][..0] == [];
    }
    NameSeesOnlyJoin(sha1, "boxtron", appId, pre + [x + y] + post, pre + [x, y] + post, "v2");
  }

  /** The name of the generated configuration `create_auto_conf_file` writes. */
  const AUTO_CONF := "boxtron_auto.conf"

  /** The files `cleanup_old_conf_files` removes when present: two fixed names and two earlier versions of the unique name. */
  function CleanupNames(sha1: string -> Sha1Hex, appId: string, args: seq<string>): seq<string>
  {
    ["steam_dos_audio.conf", "steam_dos_auto.conf",
     UniqConfNameSalted(sha1, "steam_dos", appId, args, ""),
     UniqConfNameSalted(sha1, "steam_dos", appId, args, "v1")]
  }

  /** No name the cleanup removes is a current one: neither a user configuration, of any game, nor the generated one. */
  lemma CleanupSparesCurrent(sha1: string -> Sha1Hex, appId: string, args: seq<string>, appId': string, args': seq<string>)
    ensures UniqConfName(sha1, appId', args') !in CleanupNames(sha1, appId, args)
    ensures AUTO_CONF !in CleanupNames(sha1, appId, args)
  {
    var current := UniqConfName(sha1, appId', args');
    var names := CleanupNames(sha1, appId, args);
    forall i | 0 <= i < |names|
      ensures names[i][0] == 's'
    {
      assert names[i][..9] == "steam_dos";
    }
    assert current[0] == 'b';
    assert AUTO_CONF[0] == 'b';
  }

  /**
   * `cleanup_old_conf_files(app_id, args)` over a model of the working
   * directory as the set of file names in it: each name the cleanup lists is
   * removed when it is a file.
   */
  method CleanupOldConfFiles(files: set<string>, sha1: string -> Sha1Hex, appId: string, args: seq<string>) returns (remaining: set<string>)
    ensures remaining == files - set n | n in CleanupNames(sha1, appId, args)
  {
    var names := CleanupNames(sha1, appId, args);
    remaining := files;
    for i := 0 to |names|
      invariant remaining == files - set n | n in names[..i]
    {
      if names[i] in remaining {
        remaining := remaining - {names[i]};
      }
      assert names[..i + 1] == names[..i] + [names[i]];
    }
    assert names[..|names|] == names;
  }

  /**
   * What the cleanup leaves: the current user configuration and the
   * generated one both survive it, and they are two different files (a user
   * name is `|app id| + 20` characters long, the generated one 17).
   */
  lemma CleanupKeepsCurrent(files: set<string>, sha1: string -> Sha1Hex, appId: string, args: seq<string>, remaining: set<string>)
    requires remaining == files - set n | n in CleanupNames(sha1, appId, args)
    ensures UniqConfName(sha1, appId, args) in files ==> UniqConfName(sha1, appId, args) in remaining
    ensures AUTO_CONF in files ==> AUTO_CONF in remaining
    ensures UniqConfName(sha1, appId, args) != AUTO_CONF
  {
    CleanupSparesCurrent(sha1, appId, args, appId, args);
    assert |AUTO_CONF| == 17;
  }
}
