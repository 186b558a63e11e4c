/** The `find_bucket_key` cases of the converter's unit tests, checked against the model. */
module DocxExamples {
  import opened Wrappers
  import opened Strings
  import opened DocxFormat

  lemma FindBucketKeyHttpsExample()
    ensures FindBucketKey("https://" + "s3.region-code.amazonaws.com" + "/" + "bucket-name" + "/" + "key-name")
         == Ok(HttpLocation("bucket-name", "key-name", ""))
  {
    var host := "s3.region-code.amazonaws.com";
    assert forall j :: 0 <= j < |host| ==> IsNameChar(host[j]);
    assert forall j :: 0 <= j < |"bucket-name"| ==> IsNameChar("bucket-name"[j]);
    assert forall j :: 0 <= j < |"key-name"| ==> IsNameChar("key-name"[j]);
    PlainName(host);
    PlainName("bucket-name");
    PlainName("key-name");
    SplitParamsNone("key-name");
    FindBucketKeyHttps(host, "bucket-name", "key-name");
  }

  /** A presigned URL: the key runs over several segments and the query string comes
      back apart from it. */
  lemma FindBucketKeyTokenExample()
    ensures FindBucketKey("https://" + "s3.us-east-1.amazonaws.com" + "/" + "aws-transcribe-us-east-1-prod" + "/"
                          + ("123456789012" + "/" + "my_job_name" + "/" + "g6574f2d-3g7a-4vwt-8q95-605d144c9288" + "/" + "asrOutput.json")
                          + "?" + "X-Amz-Security-Token")
         == Ok(HttpLocation("aws-transcribe-us-east-1-prod",
                            "123456789012" + "/" + "my_job_name" + "/" + "g6574f2d-3g7a-4vwt-8q95-605d144c9288" + "/" + "asrOutput.json",
                            "X-Amz-Security-Token"))
  {
    TokenExampleNames();
    PlainSegments("123456789012", "my_job_name", "g6574f2d-3g7a-4vwt-8q95-605d144c9288", "asrOutput.json");
    HttpsWithQuery("s3.us-east-1.amazonaws.com", "aws-transcribe-us-east-1-prod",
                   "123456789012" + "/" + "my_job_name" + "/" + "g6574f2d-3g7a-4vwt-8q95-605d144c9288" + "/" + "asrOutput.json",
                   "X-Amz-Security-Token");
  }

  lemma TokenExampleNames()
    ensures AllNameChars("s3.us-east-1.amazonaws.com") && AllNameChars("aws-transcribe-us-east-1-prod")
    ensures AllNameChars("123456789012") && AllKeyChars("my_job_name")
    ensures AllNameChars("g6574f2d-3g7a-4vwt-8q95-605d144c9288") && AllNameChars("asrOutput.json")
    ensures AllNameChars("X-Amz-Security-Token")
  {
    HostName();
    BucketName();
    IdName();
    assert AllNameChars("123456789012");
    assert AllKeyChars("my_job_name");
    assert AllNameChars("asrOutput.json");
    assert AllNameChars("X-Amz-Security-Token");
  }

  lemma HostName() ensures AllNameChars("s3.us-east-1.amazonaws.com") { }
  lemma BucketName() ensures AllNameChars("aws-transcribe-us-east-1-prod") { }
  lemma IdName() ensures AllNameChars("g6574f2d-3g7a-4vwt-8q95-605d144c9288") { }

  predicate AllNameChars(s: string) { forall j :: 0 <= j < |s| ==> IsNameChar(s[j]) }

  /** The characters of an object key in the examples: a name's, `/` and `_`. */
  predicate IsKeyChar(c: char) { IsNameChar(c) || c == '/' || c == '_' }

  predicate AllKeyChars(s: string) { forall j :: 0 <= j < |s| ==> IsKeyChar(s[j]) }

  /** `https://host/bucket/key?query` with plain names and a key without `?`, `#`, `:` or
      `;` gives that bucket, key and query. */
  lemma HttpsWithQuery(host: string, bucket: string, key: string, query: string)
    requires AllNameChars(host) && AllNameChars(bucket) && AllNameChars(query)
    requires NoUnsafe(key) && '?' !in key && '#' !in key && ':' !in key && ';' !in key
    ensures FindBucketKey("https://" + host + "/" + bucket + "/" + key + "?" + query)
         == Ok(HttpLocation(bucket, key, query))
  {
    PlainName(host);
    PlainName(bucket);
    PlainName(query);
    SplitParamsNone(key);
    HttpsScheme();
    FindBucketKeyHttp("https", host, bucket, key, Some(query));
    HttpsUrl(host, bucket, key, query);
  }

  lemma HttpsScheme()
    ensures IsSchemeName("https") && "https"[3..] == "ps" && LowerAscii("https") == "https"
  {
  }

  lemma HttpsUrl(host: string, bucket: string, key: string, query: string)
    ensures "https" + "://" + host + "/" + bucket + "/" + key + QuerySuffix(Some(query))
         == "https://" + host + "/" + bucket + "/" + key + "?" + query
  {
  }

  /** A key made of plain segments joined by `/` holds none of the characters that
      steer the URL parse. */
  lemma PlainSegments(a: string, b: string, c: string, d: string)
    requires AllNameChars(a) && AllKeyChars(b) && AllNameChars(c) && AllNameChars(d)
    ensures var key := a + "/" + b + "/" + c + "/" + d;
      NoUnsafe(key) && '?' !in key && '#' !in key && ':' !in key && ';' !in key
  {
    PlainName(a);
    PlainName(c);
    PlainName(d);
    assert NoUnsafe(b) && '?' !in b && '#' !in b && ':' !in b && ';' !in b;
  }

  /** `;params` after the key's last segment are not part of the key. */
  lemma FindBucketKeyParamsExample()
    ensures FindBucketKey("https://" + "h" + "/" + "b" + "/" + "k;v") == Ok(HttpLocation("b", "k", ""))
  {
    assert forall j :: 0 <= j < |"h"| ==> IsNameChar("h"[j]);
    PlainName("h");
    PlainName("b");
    assert '/' !in "k;v" && "k;v"[1] == ';';
    assert SplitParams("k;v").0 == "k";
    assert NoUnsafe("k;v");
    FindBucketKeyHttps("h", "b", "k;v");
  }

  /** `rtsps` is one of the schemes that take params, so `;v` is split off there too. */
  lemma FindBucketKeyRtspsExample()
    ensures FindBucketKey("rtsps" + "://" + "h" + "/" + "b" + "/" + "k;v") == Ok(HttpLocation("b", "k", ""))
  {
    assert forall j :: 0 <= j < |"h"| ==> IsNameChar("h"[j]);
    PlainName("h");
    PlainName("b");
    KeyWithParams();
    RtspsScheme();
    FindBucketKeyHttp("rtsps", "h", "b", "k;v", None);
    NoQuery("rtsps" + "://" + "h" + "/" + "b" + "/" + "k;v");
  }

  lemma KeyWithParams()
    ensures '?' !in "k;v" && '#' !in "k;v" && ':' !in "k;v" && NoUnsafe("k;v")
    ensures SplitParams("k;v").0 == "k"
  {
    assert '/' !in "k;v" && "k;v"[1] == ';';
  }

  lemma RtspsScheme()
    ensures IsSchemeName("rtsps") && "rtsps"[3..] == "ps"
    ensures LowerAscii("rtsps") == "rtsps" && "rtsps" in UsesParams
  {
  }

  lemma NoQuery(url: string)
    ensures url + QuerySuffix(None) == url
  {
  }

  lemma FindBucketKeyS3Example()
    ensures FindBucketKey("s3://" + "s3.region-code.amazonaws.com" + "/" + "key-name")
         == Ok(S3Location("s3.region-code.amazonaws.com", "key-name"))
  {
    FindBucketKeyS3Plain("s3.region-code.amazonaws.com", "key-name");
  }
}
