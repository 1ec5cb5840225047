/** `export-pdf.js`: render a permitted URL to PDF, upload it, answer with a signed link. */
module ExportPdf {
  import opened Common
  import opened ExportResponses

  const PdfType := "application/pdf"

  /** `pdf-` and the timestamp: the object name. */
  function ObjectName(isoNow: string): string {
    "pdf-" + Timestamp(isoNow)
  }

  /** `/tmp/` + name + `.pdf`: the local file. */
  function TempPath(name: string): string {
    "/tmp/" + name + ".pdf"
  }

  /**
   * `module.exports.handler`, with `generatePdf` and `uploadToBucket` reduced
   * to whether they resolve truthy.
   */
  function Handler(event: Event, env: Env, services: Services, generated: bool, uploaded: bool): (o: Outcome)
    ensures o.response.statusCode in {200, 400, 403, 500}
    ensures o.calls == [] <==> o.response.statusCode in {400, 403}
    ensures o.response.statusCode != 200 ==> o.response == Error(o.response.statusCode)
    ensures o.response.statusCode == 200 ==>
              && |o.calls| == 4 && o.calls[3].CreateSignedLink?
              && o.response == Success(services.sign(o.calls[3].bucket, o.calls[3].name,
                                                     o.calls[3].seconds, o.calls[3].downloadName))
  {
    if !Truthy(event.url) || !Truthy(env.pattern) || !Truthy(env.bucket) then Outcome(Error(400), [])
    else if !services.matches(event.url.value, env.pattern.value) then Outcome(Error(403), [])
    else Export(event.url.value, env.bucket.value, DownloadName(event.filename), services, generated, uploaded)
  }

  /** The handler past its guards, for a permitted `url`, a `bucket` and the download name. */
  function Export(url: string, bucket: string, dlName: string, services: Services,
                  generated: bool, uploaded: bool): (o: Outcome)
    ensures o.response == Error(500) || o.response.statusCode == 200
    ensures o.calls != [] && o.calls[0] == GeneratePdf(url, TempPath(ObjectName(services.isoNow)))
    ensures o.response.statusCode == 200 ==>
              && |o.calls| == 4 && o.calls[3].CreateSignedLink?
              && o.response == Success(services.sign(o.calls[3].bucket, o.calls[3].name,
                                                     o.calls[3].seconds, o.calls[3].downloadName))
  {
    var filename := ObjectName(services.isoNow);
    var pdfPath := TempPath(filename);
    var generate := GeneratePdf(url, pdfPath);
    if !generated then Outcome(Error(500), [generate])
    else
      var upload := UploadToBucket(bucket, filename, pdfPath, PdfType);
      if !uploaded then Outcome(Error(500), [generate, upload])
      else
        var downloadName := services.slugify(dlName) + ".pdf";
        var link := services.sign(bucket, filename, LinkLifetime, downloadName);
        Outcome(Success(link), [generate, upload, Unlink(pdfPath), CreateSignedLink(bucket, filename, LinkLifetime, downloadName)])
  }

  /**
   * A missing or empty url, pattern or bucket gives 400 before the pattern is
   * tried; a url the pattern does not match gives 403; neither makes a call.
   */
  lemma Guards(event: Event, env: Env, services: Services, generated: bool, uploaded: bool)
    ensures var o := Handler(event, env, services, generated, uploaded);
            var missing := !Truthy(event.url) || !Truthy(env.pattern) || !Truthy(env.bucket);
            && (o.response.statusCode == 400 <==> missing)
            && (o.response.statusCode == 403 <==> !missing && !services.matches(event.url.value, env.pattern.value))
            && (o.response.statusCode in {400, 403} ==> o.calls == [])
            && o.response.statusCode in {200, 400, 403, 500}
  {
  }

  /**
   * Past the guards, in this order: a failed generation into
   * `/tmp/pdf-<timestamp>.pdf` gives 500 before any upload; a failed upload of
   * that file as `pdf-<timestamp>` gives 500.
   */
  lemma Failures(event: Event, env: Env, services: Services, generated: bool, uploaded: bool)
    requires Truthy(event.url) && Truthy(env.pattern) && Truthy(env.bucket)
    requires services.matches(event.url.value, env.pattern.value)
    ensures var o := Handler(event, env, services, generated, uploaded);
            var name := "pdf-" + Timestamp(services.isoNow);
            var path := "/tmp/" + name + ".pdf";
            && o.calls[0] == GeneratePdf(event.url.value, path)
            && (!generated ==> o.response == Error(500) && |o.calls| == 1)
            && (generated ==> o.calls[1] == UploadToBucket(env.bucket.value, name, path, PdfType))
            && (generated && !uploaded ==> o.response == Error(500) && |o.calls| == 2)
  {
  }

  /**
   * 200 exactly when both steps succeed; the file is then removed and
   * `pdf-<timestamp>` signed for 3600 seconds under the slugified download
   * name with `.pdf`, and the body carries the signed link.
   */
  lemma Succeeds(event: Event, env: Env, services: Services, generated: bool, uploaded: bool)
    requires Truthy(event.url) && Truthy(env.pattern) && Truthy(env.bucket)
    requires services.matches(event.url.value, env.pattern.value)
    ensures var o := Handler(event, env, services, generated, uploaded);
            var bucket := env.bucket.value;
            var name := "pdf-" + Timestamp(services.isoNow);
            var downloadName := services.slugify(DownloadName(event.filename)) + ".pdf";
            && (o.response.statusCode == 200 <==> generated && uploaded)
            && (generated && uploaded ==>
                  && o.calls[2..] == [Unlink("/tmp/" + name + ".pdf"), CreateSignedLink(bucket, name, LinkLifetime, downloadName)]
                  && o.response == Success(services.sign(bucket, name, LinkLifetime, downloadName)))
  {
  }

  /** Without a filename, or with an empty one, the download is named after "onesheet". */
  lemma DefaultDownloadName(url: string, env: Env, services: Services)
    requires Truthy(Some(url)) && Truthy(env.pattern) && Truthy(env.bucket) && services.matches(url, env.pattern.value)
    ensures Handler(Event(Some(url), None), env, services, true, true).calls[3].downloadName
         == services.slugify("onesheet") + ".pdf"
    ensures Handler(Event(Some(url), Some("")), env, services, true, true)
         == Handler(Event(Some(url), None), env, services, true, true)
  {
  }
}
