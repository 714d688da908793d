/**
 * Making a thumbnail (internal/api/handlers_covers.go:240-251, 322-361, and
 * internal/api/handlers_community_covers.go:130-153), step by step for one request: the slots it
 * takes and gives back, and what it leaves in the shared thumbnail cache. What the many do to each
 * other is Slots' and FlightProtocol's.
 */
module CoverArt {
  import opened Basics
  import Slots

  datatype Error = Ended | ReadFailed

  /** A thumbnail, None where there is none to have, or a failure worth another try. */
  datatype Made = Thumb(jpg: Option<Bytes>) | Failed(error: Error)

  /** What reading the source of a cover gives. */
  datatype Read = Image(raw: Bytes) | NoArt | TooLarge | BadURL | Unreadable

  /** media.Thumbnail: None when the image can't be decoded. */
  type Decoder = (Bytes, int) -> Option<Bytes>

  /** How each select of a request ends: with its slot, or with its context's end. */
  datatype Fate = Fate(read: Read, gotRead: bool, gotThumb: bool)

  /** What own art comes to. */
  function OwnArt(f: Fate, size: int, decode: Decoder): Made {
    if !f.gotRead then Failed(Ended)
    else match f.read
      case Unreadable => Failed(ReadFailed)
      case BadURL => Failed(ReadFailed)
      case TooLarge => Thumb(None)
      case NoArt => Thumb(None)
      case Image(raw) => if f.gotThumb then Thumb(decode(raw, size)) else Failed(Ended)
  }

  /** What a community cover comes to: a URL that isn't one is no art, an empty image one to decode. */
  function CommunityArt(f: Fate, size: int, decode: Decoder): Made {
    if !f.gotRead then Failed(Ended)
    else match f.read
      case Unreadable => Failed(ReadFailed)
      case TooLarge => Thumb(None)
      case BadURL => Thumb(None)
      case NoArt => if f.gotThumb then Thumb(decode([], size)) else Failed(Ended)
      case Image(raw) => if f.gotThumb then Thumb(decode(raw, size)) else Failed(Ended)
  }

  class Pipelines {
    const caps: Slots.Caps
    const decode: Decoder
    var cover: nat
    var community: nat
    var thumb: nat
    var thumbs: map<string, Option<Bytes>>
    ghost var decodes: seq<(nat, nat, nat)>  // the slots taken at each decode

    ghost predicate Valid()
      reads this
    {
      cover <= caps.cover && community <= caps.community && thumb <= caps.thumb
    }

    /** No slot of the three is taken or given back. */
    twostate predicate SlotsAsBefore()
      reads this
    {
      cover == old(cover) && community == old(community) && thumb == old(thumb)
    }

    constructor (caps: Slots.Caps, decode: Decoder)
      ensures Valid() && this.caps == caps && this.decode == decode
      ensures cover == community == thumb == 0 && thumbs == map[] && decodes == []
    {
      this.caps, this.decode := caps, decode;
      cover, community, thumb, thumbs, decodes := 0, 0, 0, map[], [];
    }

    /** A decode, in a thumbSem slot given back before the answer. */
    method DecodeThumbnail(raw: Bytes, size: int, got: bool) returns (m: Made)
      requires Valid() && (got ==> thumb < caps.thumb)
      modifies this`thumb, this`decodes
      ensures Valid() && SlotsAsBefore()
      ensures m == if got then Thumb(decode(raw, size)) else Failed(Ended)
      ensures decodes == old(decodes) + if got then [(cover, community, thumb + 1)] else []
    {
      if !got {
        return Failed(Ended);
      }
      thumb := thumb + 1;
      decodes := decodes + [(cover, community, thumb)];
      var jpg := decode(raw, size);
      thumb := thumb - 1;
      return Thumb(jpg);
    }

    /** A read and its decode, in a coverReads slot held to the end of both. */
    method MakeThumbnail(f: Fate, size: int) returns (m: Made)
      requires Valid() && (f.gotRead ==> cover < caps.cover) && (f.gotThumb ==> thumb < caps.thumb)
      modifies this`cover, this`thumb, this`decodes
      ensures Valid() && SlotsAsBefore()
      ensures m == OwnArt(f, size, decode)
      ensures var decoded := f.gotRead && f.read.Image? && f.gotThumb;
        decodes == old(decodes) + if decoded then [(cover + 1, community, thumb + 1)] else []
    {
      if !f.gotRead {
        return Failed(Ended);
      }
      cover := cover + 1;
      match f.read {
        case Image(raw) => m := DecodeThumbnail(raw, size, f.gotThumb);
        case NoArt => m := Thumb(None);
        case TooLarge => m := Thumb(None);
        case BadURL => m := Failed(ReadFailed);
        case Unreadable => m := Failed(ReadFailed);
      }
      cover := cover - 1;
    }

    /** coverThumbnail: from the cache, else made and kept, a failure never kept. */
    method CoverThumbnail(key: string, f: Fate, size: int) returns (m: Made)
      requires Valid() && (f.gotRead ==> cover < caps.cover) && (f.gotThumb ==> thumb < caps.thumb)
      modifies this`cover, this`thumb, this`thumbs, this`decodes
      ensures Valid() && SlotsAsBefore()
      ensures m == if key in old(thumbs) then Thumb(old(thumbs)[key]) else OwnArt(f, size, decode)
      ensures thumbs == if m.Thumb? then old(thumbs)[key := m.jpg] else old(thumbs)
      ensures key in old(thumbs) ==> thumbs == old(thumbs) && decodes == old(decodes)
    {
      if key in thumbs {
        assert thumbs == thumbs[key := thumbs[key]];
        return Thumb(thumbs[key]);
      }
      m := MakeThumbnail(f, size);
      if m.Thumb? {
        thumbs := thumbs[key := m.jpg];
      }
    }

    /** fetchCommunityThumbnail: the cache once more, then a fetch and its decode in a communityReads
        slot, what isn't a failed fetch kept. */
    method FetchCommunityThumbnail(key: string, f: Fate, size: int) returns (m: Made)
      requires Valid() && (f.gotRead ==> community < caps.community) && (f.gotThumb ==> thumb < caps.thumb)
      modifies this`community, this`thumb, this`thumbs, this`decodes
      ensures Valid() && SlotsAsBefore()
      ensures m == if key in old(thumbs) then Thumb(old(thumbs)[key]) else CommunityArt(f, size, decode)
      ensures thumbs == if m.Thumb? then old(thumbs)[key := m.jpg] else old(thumbs)
      ensures key in old(thumbs) ==> thumbs == old(thumbs) && decodes == old(decodes)
      ensures key !in old(thumbs) ==>
        var decoded := f.gotRead && (f.read.Image? || f.read.NoArt?) && f.gotThumb;
        decodes == old(decodes) + if decoded then [(cover, community + 1, thumb + 1)] else []
    {
      if key in thumbs {
        assert thumbs == thumbs[key := thumbs[key]];
        return Thumb(thumbs[key]);
      }
      if !f.gotRead {
        return Failed(Ended);
      }
      community := community + 1;
      match f.read {
        case Image(raw) => m := DecodeThumbnail(raw, size, f.gotThumb);
        case NoArt => m := DecodeThumbnail([], size, f.gotThumb);
        case TooLarge => m := Thumb(None);
        case BadURL => m := Thumb(None);
        case Unreadable => m := Failed(ReadFailed);
      }
      if m.Thumb? {
        thumbs := thumbs[key := m.jpg];
      }
      community := community - 1;
    }
  }

  /** Whether a read that got its slot has an image that decodes. */
  predicate Decodes(raw: Bytes, size: int, decode: Decoder) {
    decode(raw, size).Some?
  }

  /**
   * Own art comes to no art, kept as that in the cache, exactly when its source holds none, or one
   * too large, or one that does not decode; to a failed read, to be tried again, exactly when it
   * could not be read; and to the request's end exactly when that came before a slot it needed.
   */
  lemma OwnArtExactly(f: Fate, size: int, decode: Decoder)
    ensures var m := OwnArt(f, size, decode);
      var undecodable := f.read.Image? && f.gotThumb && !Decodes(f.read.raw, size, decode);
      && (m == Thumb(None) <==> f.gotRead && (f.read == NoArt || f.read == TooLarge || undecodable))
      && (m == Failed(ReadFailed) <==> f.gotRead && (f.read == Unreadable || f.read == BadURL))
      && (m == Failed(Ended) <==> !f.gotRead || (f.read.Image? && !f.gotThumb))
      && (m.Thumb? && m.jpg.Some? ==> f.gotRead && f.read.Image? && f.gotThumb && m.jpg == decode(f.read.raw, size))
  {
  }

  /** A community cover comes to no art also when its URL is none, which own art cannot be; what holds
      no bytes is left to the decoder. */
  lemma CommunityArtExactly(f: Fate, size: int, decode: Decoder)
    ensures var m := CommunityArt(f, size, decode);
      var raw := if f.read.Image? then f.read.raw else [];
      var undecodable := (f.read.Image? || f.read == NoArt) && f.gotThumb && !Decodes(raw, size, decode);
      && (m == Thumb(None) <==> f.gotRead && (f.read == BadURL || f.read == TooLarge || undecodable))
      && (m == Failed(ReadFailed) <==> f.gotRead && f.read == Unreadable)
      && (m == Failed(Ended) <==> !f.gotRead || ((f.read.Image? || f.read == NoArt) && !f.gotThumb))
      && (m.Thumb? && m.jpg.Some? ==> f.gotRead && f.gotThumb && m.jpg == decode(raw, size))
  {
  }
}
