/** The CA_SECRET setting and the data that is copied from the secret it names. */
module CASecrets {
  import opened Wrappers
  import Text

  datatype CASecret = CASecret(name: string, keys: seq<string>)

  /** What UnmarshalText makes of a text. */
  function Parse(text: string): Option<CASecret> {
    var halves := Text.Split(text, '/');
    if |halves| != 2 then None else Some(CASecret(halves[0], Text.Split(halves[1], ',')))
  }

  /** The documented format of the setting. */
  function Print(secret: CASecret): string {
    secret.name + "/" + Text.Join(secret.keys, ',')
  }

  /** The setting is a variable that UnmarshalText overwrites. */
  class Setting {
    var secret: CASecret

    constructor ()
      ensures secret == CASecret("", [])
    {
      secret := CASecret("", []);
    }

    method UnmarshalText(text: string) returns (ok: bool)
      modifies this
      ensures ok <==> Text.Occurrences(text, '/') == 1
      ensures ok ==> |secret.keys| > 0 && Print(secret) == text
      ensures ok ==> Parse(text) == Some(secret)
      ensures !ok ==> secret == old(secret)
    {
      ParseExact(text);
      var halves := Text.Split(text, '/');
      Text.JoinOfSplit(text, '/');
      if |halves| != 2 {
        return false;
      }
      var name, value := halves[0], halves[1];
      var keys := Text.Split(value, ',');
      secret := CASecret(name, keys);
      return true;
    }
  }

  /** A text is accepted exactly when it holds one slash, and then the accepted value prints as that text. */
  lemma ParseExact(text: string)
    ensures Parse(text).Some? <==> Text.Occurrences(text, '/') == 1
    ensures Parse(text).Some? ==> |Parse(text).value.keys| > 0 && Print(Parse(text).value) == text
    ensures Parse(text).Some? ==>
              '/' !in Parse(text).value.name && Text.AllFree(Parse(text).value.keys, ',')
  {
    var halves := Text.Split(text, '/');
    Text.JoinOfSplit(text, '/');
    if |halves| == 2 {
      Text.JoinOfSplit(halves[1], ',');
      assert Text.Join(halves, '/') == halves[0] + "/" + Text.Join(halves[1..], '/');
    }
  }

  lemma {:induction false} JoinAvoids(parts: seq<string>, sep: char, c: char)
    requires c != sep && Text.AllFree(parts, c)
    ensures c !in Text.Join(parts, sep)
  {
    if |parts| > 1 {
      JoinAvoids(parts[1..], sep, c);
    }
  }

  /** Printing a separator-free setting and parsing the text gives the setting back. */
  lemma ParseOfPrint(secret: CASecret)
    requires '/' !in secret.name && |secret.keys| > 0
    requires Text.AllFree(secret.keys, '/') && Text.AllFree(secret.keys, ',')
    ensures Parse(Print(secret)) == Some(secret)
  {
    var value := Text.Join(secret.keys, ',');
    JoinAvoids(secret.keys, ',', '/');
    assert Print(secret) == secret.name + ['/'] + value;
    Text.SplitPrefix(secret.name, value, '/');
    Text.SplitFree(value, '/');
    Text.SplitOfJoin(secret.keys, ',');
  }

  /** The loop of setupWebhooks that picks the configured keys out of the default CA secret. None is the
      error return for a key that the secret does not hold. */
  method CollectData<V>(keys: seq<string>, data: map<string, V>) returns (collected: Option<map<string, V>>)
    ensures collected.None? <==> exists key :: key in keys && key !in data
    ensures collected.Some? ==>
              && (forall key :: key in collected.value <==> key in keys)
              && (forall key :: key in collected.value ==> key in data && collected.value[key] == data[key])
  {
    var picked := map[];
    for i := 0 to |keys|
      invariant forall key :: key in picked <==> key in keys[..i]
      invariant forall key :: key in picked ==> key in data && picked[key] == data[key]
    {
      if keys[i] !in data {
        return None;
      }
      picked := picked[keys[i] := data[keys[i]]];
      assert keys[..i + 1] == keys[..i] + [keys[i]];
    }
    assert keys[..|keys|] == keys;
    return Some(picked);
  }
}
