/** What the two job-submitting handlers share: the SQS records they are handed, the
    S3 object each record's body announces, the `s3://` URI they build from it, and the
    partial-batch response they return. */
module SqsBatch {
  import opened Wrappers
  import DocxFormat

  /** The object an S3 event names: its bucket and its key after `unquote_plus`. */
  datatype S3Object = S3Object(bucket: string, key: string)

  /** One SQS record: its message id and what reading its body gives, either the first
      S3 event record's object or the fault that `json.loads` or one of the subscripts
      raised. */
  datatype SqsRecord = SqsRecord(messageId: string, body: Result<S3Object>)

  /** The handler's return value: `{}` when no record failed, otherwise
      `{"batchItemFailures": [{"itemIdentifier": id}, ...]}`, here the list of ids. */
  datatype SqsResponse = SqsResponse(batchItemFailures: Option<seq<string>>)

  /** The response for the failed message ids, in the order they failed. */
  function BatchResponse(failures: seq<string>): (r: SqsResponse)
    ensures r.batchItemFailures.Some? <==> failures != []
    ensures r.batchItemFailures.Some? ==> r.batchItemFailures.value == failures
  {
    if |failures| > 0 then SqsResponse(Some(failures)) else SqsResponse(None)
  }

  /** `"s3://" + bucket + "/" + key`. */
  function MediaUri(obj: S3Object): string
  {
    "s3://" + obj.bucket + "/" + obj.key
  }

  /** The URI names the object it was built from: reading it back with the document
      generator's `find_bucket_key` gives the same bucket and key, as long as the bucket
      holds no `/` and neither part holds a `:`. */
  lemma MediaUriRoundTrip(obj: S3Object)
    requires '/' !in obj.bucket && ':' !in obj.bucket && ':' !in obj.key
    ensures DocxFormat.FindBucketKey(MediaUri(obj)) == Ok(DocxFormat.S3Location(obj.bucket, obj.key))
  {
    DocxFormat.FindBucketKeyS3Plain(obj.bucket, obj.key);
  }
}
