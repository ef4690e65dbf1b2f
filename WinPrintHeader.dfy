/** The constants of WinPrint.h. */
module WinPrintHeader {
  /** The file `PrintFile` prints when no name is given. */
  const PrintFileName: string := "To Print.txt"

  /** The directory, relative to the working directory, that holds the file. */
  const PathToPrintFile: string := "../Resources/"

  /** The full path `PrintFile` builds for a file name. */
  function FilePath(fileName: string): (path: string)
    ensures |path| == |PathToPrintFile| + |fileName|
    ensures path[..|PathToPrintFile|] == PathToPrintFile
    ensures path[|PathToPrintFile|..] == fileName
  {
    PathToPrintFile + fileName
  }

  /** The default job prints "../Resources/To Print.txt". */
  lemma {:induction false} DefaultFilePath()
    ensures FilePath(PrintFileName) == "../Resources/To Print.txt"
  {
  }
}
