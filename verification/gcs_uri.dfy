/** `PDFLoader.load_from_gcs`: a `gs://bucket/blob` URI is checked and cut
    into bucket and blob; the bytes are fetched from storage, which is a
    parameter here. */
module GcsUri {
  import opened Wrappers
  import opened PyValue
  import opened Text

  const Scheme: string := "gs://"

  /** Where an object lives in Cloud Storage. */
  datatype Location = Location(bucket: string, blob: string)

  /** The `PDFDocument` dataclass. */
  datatype PdfDocument = PdfDocument(docId: string, bytesContent: seq<bv8>, sourceUri: string, metadata: map<string, string>)

  /** The URI a location is written as. */
  function UriOf(l: Location): string {
    Scheme + l.bucket + "/" + l.blob
  }

  /** The check and the two `split` calls of `load_from_gcs`. `split("gs://", 1)`
      cuts at the first occurrence of the scheme, which is at offset 0 once
      the prefix check passed, so the remainder is the text after the
      scheme; `split("/", 1)` cuts it at its first "/", and without one the
      two-name unpacking raises. A URI is accepted exactly when it starts
      with the scheme and has a "/" after it; the bucket then holds no "/"
      and the URI is the location written back. */
  function SplitGcsUri(uri: string): (r: Result<Location, Error>)
    ensures r.Ok? <==> StartsWith(uri, Scheme) && '/' in uri[|Scheme|..]
    ensures !StartsWith(uri, Scheme) ==> r == Err(ValueError("Invalid GCS URI"))
    ensures r.Ok? ==> '/' !in r.value.bucket && UriOf(r.value) == uri
  {
    if !StartsWith(uri, Scheme) then Err(ValueError("Invalid GCS URI"))
    else
      var remainder := uri[|Scheme|..];
      match FirstIndexOf(remainder, '/')
      case None => Err(ValueError(CannotUnpack))
      case Some(i) =>
        var l := Location(remainder[..i], remainder[i + 1..]);
        SplitAt(uri, |Scheme|, i);
        Ok(l)
  }

  lemma SplitAt(uri: string, n: nat, i: nat)
    requires n + i < |uri| && uri[n + i] == '/'
    ensures uri == uri[..n] + uri[n..][..i] + "/" + uri[n..][i + 1..]
  {
    var remainder := uri[n..];
    assert remainder == remainder[..i] + [remainder[i]] + remainder[i + 1..];
    assert uri == uri[..n] + remainder;
  }

  /** Writing a location as a URI and splitting it gives the location back,
      whenever its bucket has no "/" (a "/" in the bucket would move the
      cut). The blob may be anything, "/" and empty included. */
  lemma SplitUriOf(l: Location)
    requires '/' !in l.bucket
    ensures SplitGcsUri(UriOf(l)) == Ok(l)
  {
    var uri := UriOf(l);
    assert uri[..|Scheme|] == Scheme;
    var r := SplitGcsUri(uri);
    assert uri[|Scheme|..] == l.bucket + ['/'] + l.blob;
    assert r.Ok?;
    assert l.bucket + ['/'] + l.blob == r.value.bucket + ['/'] + r.value.blob by {
      assert UriOf(r.value) == uri;
      assert UriOf(r.value)[|Scheme|..] == r.value.bucket + ['/'] + r.value.blob;
    }
    CutAtFirst(l.bucket, l.blob, r.value.bucket, r.value.blob, '/');
  }

  /** `load_from_gcs(gcs_uri, doc_id)`; `fetch(bucket, blob)` stands for
      `blob.download_as_bytes()`. The document keeps the URI verbatim, and
      its metadata names the bucket and blob the URI is written from. */
  function LoadFromGcs(uri: string, docId: string, fetch: (string, string) -> seq<bv8>): (r: Result<PdfDocument, Error>)
    ensures r.Ok? <==> SplitGcsUri(uri).Ok?
    ensures r.Ok? ==>
      && r.value.docId == docId
      && r.value.sourceUri == uri
      && r.value.metadata.Keys == {"source", "bucket", "blob"}
      && r.value.metadata["source"] == "gcs"
      && UriOf(Location(r.value.metadata["bucket"], r.value.metadata["blob"])) == uri
      && '/' !in r.value.metadata["bucket"]
      && r.value.bytesContent == fetch(r.value.metadata["bucket"], r.value.metadata["blob"])
  {
    var l :- SplitGcsUri(uri);
    Ok(PdfDocument(docId, fetch(l.bucket, l.blob), uri, map["source" := "gcs", "bucket" := l.bucket, "blob" := l.blob]))
  }
}
