/**
 * pkg/filesystem: the public URL of a stored file on a public disk and on
 * an S3 disk. The storage driver behind the disk is left out.
 */
module Disks {
  import opened GoStrings

  /** PublicDisk and S3Disk keep only their base URL here. */
  datatype PublicDisk = PublicDisk(url: string)
  {
    /** Url: "" without a base URL; else the base without trailing slashes, "/", and the path verbatim. */
    function Url(path: string): (r: string)
      ensures url == "" ==> r == ""
      ensures url != "" ==> HasPrefix(r, TrimRight(url, "\\/")) && r[|TrimRight(url, "\\/")|..] == "/" + path
    {
      if url == "" then "" else TrimRight(url, "\\/") + "/" + path
    }
  }

  datatype S3Disk = S3Disk(url: string)
  {
    function Url(path: string): (r: string)
      ensures url == "" ==> r == ""
      ensures url != "" ==> HasPrefix(r, TrimRight(url, "\\/")) && r[|TrimRight(url, "\\/")|..] == "/" + path
    {
      if url == "" then "" else TrimRight(url, "\\/") + "/" + path
    }
  }

  /** NewS3Disk builds a PublicDisk, not an S3Disk. */
  function NewS3Disk(url: string): (d: PublicDisk)
    ensures d.url == url
  {
    PublicDisk(url)
  }

  /** The two Url methods agree, so the disk NewS3Disk returns answers as an S3Disk would. */
  lemma UrlsAgree(url: string, path: string)
    ensures S3Disk(url).Url(path) == PublicDisk(url).Url(path)
    ensures NewS3Disk(url).Url(path) == S3Disk(url).Url(path)
  {
  }

  /** A base URL made of slashes only still yields a URL: "/" and the path. */
  lemma SlashOnlyBase(path: string)
    ensures PublicDisk("/").Url(path) == "/" + path
  {
    assert "/"[..0] == "";
  }
}
