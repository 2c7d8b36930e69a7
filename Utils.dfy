/**
 * MIME-type classifiers of the server's utility module (server/src/utils/index.ts).
 * The source reads its prefix lists from a constants module that is not part
 * of this model, so every classifier takes its list as a parameter.
 */
module Utils {

  /** Some entry of `prefixes` starts `mimeType`: `prefixes.some((x) => mimeType.startsWith(x))`.
      On sequences `p <= m` is the prefix relation, which is `startsWith`. */
  function StartsWithAny(prefixes: seq<string>, mimeType: string): (r: bool)
  {
    if prefixes == [] then false
    else prefixes[0] <= mimeType || StartsWithAny(prefixes[1..], mimeType)
  }

  /** The left-to-right scan of `some` holds exactly when one entry is a prefix. */
  lemma {:induction false} StartsWithAnyIsSome(prefixes: seq<string>, mimeType: string)
    ensures StartsWithAny(prefixes, mimeType) <==>
            exists i :: 0 <= i < |prefixes| && prefixes[i] <= mimeType
  {
    if prefixes != [] {
      StartsWithAnyIsSome(prefixes[1..], mimeType);
      assert forall i :: 1 <= i < |prefixes| ==> prefixes[i] == prefixes[1..][i - 1];
    }
  }

  /** `isImage(mimeType)`, with the image prefix list passed in. */
  function IsImage(imageMimeTypes: seq<string>, mimeType: string): (r: bool)
    ensures r <==> exists i :: 0 <= i < |imageMimeTypes| && imageMimeTypes[i] <= mimeType
  {
    StartsWithAnyIsSome(imageMimeTypes, mimeType);
    StartsWithAny(imageMimeTypes, mimeType)
  }

  /** `isAudio(mimeType)`, with the audio prefix list passed in. */
  function IsAudio(audioMimeTypes: seq<string>, mimeType: string): (r: bool)
    ensures r <==> exists i :: 0 <= i < |audioMimeTypes| && audioMimeTypes[i] <= mimeType
  {
    StartsWithAnyIsSome(audioMimeTypes, mimeType);
    StartsWithAny(audioMimeTypes, mimeType)
  }

  /** With no prefixes nothing is classified; a type equal to an entry always is. */
  lemma {:induction false} StartsWithAnyBounds(prefixes: seq<string>, mimeType: string)
    ensures prefixes == [] ==> !StartsWithAny(prefixes, mimeType)
    ensures mimeType in prefixes ==> StartsWithAny(prefixes, mimeType)
  {
    if prefixes != [] && mimeType in prefixes && prefixes[0] != mimeType {
      assert mimeType in prefixes[1..];
      StartsWithAnyBounds(prefixes[1..], mimeType);
    }
  }

  /** Classification is stable under extension: appending a suffix (parameters,
      say) to a classified type keeps it classified. */
  lemma {:induction false} StartsWithAnyExtends(prefixes: seq<string>, mimeType: string, suffix: string)
    requires StartsWithAny(prefixes, mimeType)
    ensures StartsWithAny(prefixes, mimeType + suffix)
  {
    if prefixes[0] <= mimeType {
      assert (mimeType + suffix)[..|prefixes[0]|] == mimeType[..|prefixes[0]|];
    } else {
      StartsWithAnyExtends(prefixes[1..], mimeType, suffix);
    }
  }

  lemma IsImageExtends(imageMimeTypes: seq<string>, mimeType: string, suffix: string)
    requires IsImage(imageMimeTypes, mimeType)
    ensures IsImage(imageMimeTypes, mimeType + suffix)
  {
    StartsWithAnyExtends(imageMimeTypes, mimeType, suffix);
    StartsWithAnyIsSome(imageMimeTypes, mimeType + suffix);
  }

  lemma IsAudioExtends(audioMimeTypes: seq<string>, mimeType: string, suffix: string)
    requires IsAudio(audioMimeTypes, mimeType)
    ensures IsAudio(audioMimeTypes, mimeType + suffix)
  {
    StartsWithAnyExtends(audioMimeTypes, mimeType, suffix);
    StartsWithAnyIsSome(audioMimeTypes, mimeType + suffix);
  }
}
