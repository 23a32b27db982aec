/**
 * The path work shared by `plot_metric` and `publish_dashboard`: `os.path.join`,
 * `os.path.basename`, and where in S3 an output file goes next to the input CSV.
 */
module S3Paths {
  import opened PyText

  /** `os.path.join(directory, name)` on POSIX. */
  function PathJoin(directory: string, name: string): (path: string)
    ensures StartsWith(name, "/") ==> path == name
    ensures !StartsWith(name, "/") && (directory == "" || directory[|directory| - 1] == '/') ==> path == directory + name
    ensures !StartsWith(name, "/") && directory != "" && directory[|directory| - 1] != '/' ==> path == directory + "/" + name
  {
    if StartsWith(name, "/") then name
    else if directory == "" || directory[|directory| - 1] == '/' then directory + name
    else directory + "/" + name
  }

  /** `os.path.basename(path)`: what follows the last "/". */
  function Basename(path: string): (name: string)
    ensures '/' !in name
  {
    var pieces := Split(path, '/');
    SplitPiecesFree(path, '/');
    pieces[|pieces| - 1]
  }

  /** The name joined onto any directory is what `basename` gives back. */
  lemma BasenameOfJoin(directory: string, name: string)
    requires '/' !in name
    ensures Basename(PathJoin(directory, name)) == name
  {
    SplitFree(name, '/');
    assert !StartsWith(name, "/") by {
      assert |name| >= 1 ==> name[..1][0] == name[0] != '/';
    }
    if directory == "" {
      assert PathJoin(directory, name) == name;
    } else if directory[|directory| - 1] == '/' {
      var head := directory[..|directory| - 1];
      assert PathJoin(directory, name) == head + ['/'] + name;
      SplitAround(head, '/', name);
    } else {
      assert PathJoin(directory, name) == directory + ['/'] + name;
      SplitAround(directory, '/', name);
    }
  }

  const S3Scheme: string := "s3://"
  const OutputDir: string := "/output/1A_Charts/"
  const UploadNote: string := "\n\U{2601}\U{FE0F} Also uploaded to: "

  /** `upload_to_s3 and csv_path.startswith("s3://")` */
  predicate Uploads(uploadToS3: bool, csvPath: string) {
    uploadToS3 && StartsWith(csvPath, S3Scheme)
  }

  /** Where the output goes: a bucket and a key. */
  datatype Location = Location(bucket: string, key: string)

  /** The "/"-pieces of a path that starts with "s3://": "s3:", "", the bucket, and the rest. */
  function SchemePieces(csvPath: string): (pieces: seq<string>)
    requires StartsWith(csvPath, S3Scheme)
    ensures pieces == Split(csvPath, '/')
    ensures |pieces| >= 3 && pieces[..2] == ["s3:", ""] && '/' !in pieces[2]
  {
    var rest := csvPath[|S3Scheme|..];
    assert csvPath == "s3:" + ['/'] + ("" + ['/'] + rest);
    SplitAround("s3:", '/', "" + ['/'] + rest);
    SplitAround("", '/', rest);
    SplitFree("s3:", '/');
    assert Split("", '/') == [""];
    SplitPiecesFree(csvPath, '/');
    Split(csvPath, '/')
  }

  /**
   * The bucket is the third "/"-piece of the CSV path; the key is the pieces
   * between the bucket and the file name, then "/output/1A_Charts/", then the
   * output file's base name.
   */
  function OutputLocation(csvPath: string, localFile: string): (loc: Location)
    requires StartsWith(csvPath, S3Scheme)
    ensures var pieces := SchemePieces(csvPath);
      loc.bucket == pieces[2] && '/' !in loc.bucket
      && loc.key == Join(Between(pieces), '/') + OutputDir + Basename(localFile)
  {
    var pieces := SchemePieces(csvPath);
    Location(pieces[2], Join(Between(pieces), '/') + OutputDir + Basename(localFile))
  }

  /** `pieces[3:-1]`: empty when nothing lies between the bucket and the last piece. */
  function Between(pieces: seq<string>): (middle: seq<string>)
    ensures |pieces| >= 4 ==> middle == pieces[3..|pieces| - 1]
    ensures |pieces| < 4 ==> middle == []
  {
    if |pieces| >= 4 then pieces[3..|pieces| - 1] else []
  }

  /** `f"s3://{bucket}/{s3_key}"` */
  function Uri(loc: Location): string {
    S3Scheme + loc.bucket + "/" + loc.key
  }

  /** The result text, with the upload line appended when the file is uploaded. */
  function WithUploadNote(local: string, uploadToS3: bool, csvPath: string, localFile: string): (result: string)
    ensures !Uploads(uploadToS3, csvPath) ==> result == local
    ensures Uploads(uploadToS3, csvPath) ==> result == local + UploadNote + Uri(OutputLocation(csvPath, localFile))
  {
    if Uploads(uploadToS3, csvPath) then local + UploadNote + Uri(OutputLocation(csvPath, localFile)) else local
  }

  /**
   * For a CSV at s3://bucket/d1/.../dn/file, the output lands in the same bucket
   * under d1/.../dn/output/1A_Charts/.
   */
  lemma {:induction false} LocationOfNestedCsv(bucket: string, dirs: seq<string>, csvName: string, localFile: string)
    requires '/' !in bucket && '/' !in csvName
    requires forall i :: 0 <= i < |dirs| ==> '/' !in dirs[i]
    ensures var csvPath := Join(["s3:", "", bucket] + dirs + [csvName], '/');
      StartsWith(csvPath, S3Scheme) &&
      OutputLocation(csvPath, localFile) == Location(bucket, Join(dirs, '/') + OutputDir + Basename(localFile))
  {
    var pieces := ["s3:", "", bucket] + dirs + [csvName];
    var csvPath := Join(pieces, '/');
    assert csvPath == "s3:" + ['/'] + Join(pieces[1..], '/');
    assert Join(pieces[1..], '/') == "" + ['/'] + Join(pieces[2..], '/');
    assert csvPath[..|S3Scheme|] == S3Scheme;
    assert forall i :: 0 <= i < |pieces| ==> '/' !in pieces[i];
    SplitJoin(pieces, '/');
    assert Between(pieces) == dirs;
  }

  /** A CSV at the top of its bucket gives a key that starts with "/". */
  lemma RootCsvKeyStartsWithSlash(bucket: string, csvName: string, localFile: string)
    requires '/' !in bucket && '/' !in csvName
    ensures var csvPath := "s3://" + bucket + "/" + csvName;
      StartsWith(csvPath, S3Scheme) && OutputLocation(csvPath, localFile).key[0] == '/'
  {
    LocationOfNestedCsv(bucket, [], csvName, localFile);
    assert ["s3:", "", bucket] + [] + [csvName] == ["s3:", "", bucket, csvName];
    var four := ["s3:", "", bucket, csvName];
    assert four[1..] == ["", bucket, csvName] && four[1..][1..] == [bucket, csvName];
    assert four[1..][1..][1..] == [csvName];
    assert Join([bucket, csvName], '/') == bucket + "/" + csvName;
    assert Join(["", bucket, csvName], '/') == "" + "/" + (bucket + "/" + csvName);
    assert Join(four, '/') == "s3:" + "/" + ("" + "/" + (bucket + "/" + csvName));
    assert "s3:" + "/" + ("" + "/" + (bucket + "/" + csvName)) == "s3://" + bucket + "/" + csvName;
  }
}
