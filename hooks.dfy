/** `add_delete_on_delete`, the class decorator of the Django front end that
    replaces a model class's `delete` with one that also removes the stored
    file: the storage and path are taken first, then the row is deleted, the
    folder saved again, and the file deleted last. */
module DeleteHook {
  import opened Common
  import opened Folders
  import UuidCodec

  /** Which `delete` a model class holds: Django's own `Model.delete`, which
      deletes the row only, or the one the decorator installs. */
  datatype DeleteRule = ModelDelete | DeleteWithFile

  /** A model class, as far as its `delete` attribute goes. */
  class ModelClass {
    var delete: DeleteRule

    /** A class as declared, with the inherited `Model.delete`. */
    constructor()
      ensures delete == ModelDelete
    {
      delete := ModelDelete;
    }
  }

  /** `add_delete_on_delete(cls)`: `cls.delete` is replaced, and the same class
      is returned. */
  method AddDeleteOnDelete(cls: ModelClass) returns (r: ModelClass)
    modifies cls
    ensures r == cls && cls.delete == DeleteWithFile
  {
    cls.delete := DeleteWithFile;
    r := cls;
  }

  /** `instance.delete()` on an upload of the class `cls`. Django's
      `Model.delete` asserts the row has a key, deletes the row and clears the
      key; the installed `delete` is the body `UploadedFile.delete` also has,
      modelled as `UploadedFile.Delete`. */
  method InstanceDelete(cls: ModelClass, u: UploadedFile, site: Site, sha1: string -> string, made: UuidCodec.Uuid)
    returns (err: Option<PyError>)
    requires site.Valid()
    modifies u, site, u.folder
    ensures site.Valid()
    ensures cls.delete == ModelDelete ==>
      err == (if old(u.id).None? then Some(AssertionError) else None) &&
      site.blobs == old(site.blobs) && site.folders == old(site.folders) && site.dirs == old(site.dirs)
    ensures cls.delete == ModelDelete && err.Some? ==>
      u.id == old(u.id) && site.files == old(site.files) && site.log == old(site.log)
    ensures cls.delete == ModelDelete && err.None? ==>
      u.id.None? && site.files == Without(old(site.files), old(u.id).value) &&
      site.log == old(site.log) + [FileRowDeleted(old(u.id).value)]
    ensures cls.delete == DeleteWithFile ==>
      (err.None? <==>
        old(u.name) != "" && old(u.id).Some? &&
        !CaptionTaken(old(site.folders), old(u.folder.caption), old(u.folder.id)))
    ensures cls.delete == DeleteWithFile && err.None? ==>
      u.id.None? && site.files == Without(old(site.files), old(u.id).value) &&
      site.blobs == old(site.blobs) - {site.BlobPath(old(u.name))}
  {
    if cls.delete == DeleteWithFile {
      err := u.Delete(site, sha1, made);
    } else if u.id.None? {
      err := Some(AssertionError);
    } else {
      site.DeleteFileRow(u.id.value);
      u.id := None;
      err := None;
    }
  }
}
