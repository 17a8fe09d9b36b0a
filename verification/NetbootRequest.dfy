/** A netboot request as the server prepares it: the image's name on disk, and what the bootloader is to verify. */
module NetbootRequest {
  import opened Bytes
  import opened Digits
  import opened ImageNames
  import S = Store
  import opened UBootScript
  import Crc32
  import IS = ImageStore

  datatype Request = Request(image: string, powerCycle: bool, kernelArgs: string, verify: bool)

  datatype Refusal = NoStore | ImageNotFound | BadName

  datatype Prepared = Ready(params: Params) | Refused(why: Refusal)

  /** Looks an image up in a listing. */
  method FindImage(list: seq<S.Info>, image: string) returns (r: Option<S.Info>)
    ensures r.Some? ==> r.value in list && r.value.name == image
    ensures r.None? ==> forall e :: e in list ==> e.name != image
  {
    for i := 0 to |list|
      invariant forall e :: e in list[..i] ==> e.name != image
    {
      if list[i].name == image {
        return Some(list[i]);
      }
    }
    assert list[..|list|] == list;
    return None;
  }

  /** The checksum of some content as a number. */
  function ChecksumOf(content: seq<byte>): uint32 {
    Crc32.Checksum(content) as int
  }

  /** What a listing says of an image: its length and checksum. */
  method LookUp(store: S.Store, image: string) returns (size: nat, crc: uint32, found: bool)
    ensures found <==> image in S.Shown(store.dir.files, store.prefix)
    ensures found ==> var content := S.Shown(store.dir.files, store.prefix)[image];
                      size == |content| && crc == ChecksumOf(content)
  {
    size, crc := 0, 0;
    var list := store.List();
    var entry := FindImage(list, image);
    found := entry.Some?;
    if found {
      size, crc := entry.value.size, entry.value.checksum as int;
    }
  }

  /** Fills in length and checksum of the stored image if they are to be verified, and its name on disk. */
  method Prepare(store: S.Store?, req: Request) returns (r: Prepared)
    ensures r == Refused(NoStore) <==> req.verify && store == null
    ensures store == null && !req.verify ==> r.Ready? && r.params.image == req.image
    ensures store != null ==>
              var shown := S.Shown(store.dir.files, store.prefix);
              && (r == Refused(ImageNotFound) <==> req.verify && req.image !in shown)
              && (r == Refused(BadName) <==> (req.verify ==> req.image in shown) && !PlainName(req.image))
              && (r.Ready? ==> r.params.image == store.prefix + req.image)
              && (r.Ready? && req.verify ==>
                    && r.params.imageLen == |shown[req.image]|
                    && r.params.imageCRC == ChecksumOf(shown[req.image]))
    ensures r.Ready? ==> r.params.verify == req.verify && r.params.powerCycle == req.powerCycle
                         && r.params.kernelArgs == req.kernelArgs && r.params.serverIP == ""
  {
    var size, crc: uint32 := 0, 0;
    if req.verify {
      if store == null {
        return Refused(NoStore);
      }
      var found;
      size, crc, found := LookUp(store, req.image);
      if !found {
        return Refused(ImageNotFound);
      }
    }
    var image := req.image;
    if store != null {
      var path := OnDiskName(store.prefix, req.image);
      SanitizeExactly(req.image);
      if path.None? {
        return Refused(BadName);
      }
      image := path.value;
    }
    r := Ready(Params(image, req.powerCycle, "", req.kernelArgs, req.verify, size, crc));
  }

  /**
   The bytes the bootloader is told to verify are the bytes it is served: the file that its request for the prepared
   name resolves to is the one whose content has the checksum written on its command line.
   */
  lemma VerifiesWhatIsServed(files: IS.Files, instance: string, image: string)
    requires instance == "" || ValidInstance(instance)
    requires PlainName(image) && !IsSpace(image[|image| - 1]) && image in S.Shown(files, Prefix(instance))
    ensures var f := Prefix(instance) + image;
            && Resolve("/" + f) == Some(f) && f in files && S.Shown(files, Prefix(instance))[image] == files[f]
            && ParseUint(Pad(8, Print(16, ChecksumOf(files[f]))), 16, CRC_LIMIT) == Some(ChecksumOf(files[f]))
  {
    var f := Prefix(instance) + image;
    TftpFindsUpload(instance, image);
    IS.ListedAt(files, Prefix(instance), image);
    CrcWordIsExact(ChecksumOf(files[f]));
  }
}
