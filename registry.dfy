/**
  The archive's type registry: each entry of an archive names its type by
  the `jamcrc` of a resource-class name, and the registry maps that hash to
  the file extension the extracted file gets.
*/
module Registry {
  import opened Crc

  /** (resource class, extension) in registration order; a later hash wins. */
  const TypeNames: seq<(string, string)> := [
    ("rBattleBinary", ".btb"),
    ("rBattleCutCmdData", ".bccmd"),
    ("rBattleSelectSetData", ".bsset"),
    ("rAgingFieldPatrolDataNative", ".afpd"),
    ("rTalkDemoCut", ".cut"),
    ("rTalkDemoSound", ".tsnd"),
    ("rTalkDemoWorkOriginInfo", ".work"),
    ("rTalkDemoObjInitPos", ".pos"),
    ("rFieldEnemyDefaultAifsmDataNaitive", ".fedad"),
    ("rFieldConnectionInfoNative", ".fci"),
    ("rFieldPartsInfoNative", ".fpi"),
    ("rFieldPartsLayoutNative", ".fpl"),
    ("rTraceSonarNative", ".ts"),
    ("rFieldPlacementObjectSetNative", ".fpos"),
    ("rFieldCamOption", ".fco"),
    ("rDungeonInfoListNative", ".dai"),
    ("rFieldNpcNekoTaxiList", ".fntl"),
    ("rFieldObjectList", ".fol"),
    ("rFieldCamera", ".fcr"),
    ("rOccluder2Native", ".occ2"),
    ("rInstanceDrawDistance", ".idd"),
    ("rIDColor", ".idcol"),
    ("rInstancePlacement", ".ipr"),
    ("rPlayerMoveConfigData", ".pmc"),
    ("rSoundGuiSe", ".sgs"),
    ("rSoundParamOffsetControl", ".spoc"),
    ("rSoundPelTiedSe", ".pts"),
    ("rSoundAreaReverb", ".sar"),
    ("rSoundSystemSetting", ".sss"),
    ("rSoundPronounceList", ".sptl"),
    ("rEnaJoinProgressDataNative", ".ejpd"),
    ("rKizunaLvProgressDataNative", ".klpd"),
    ("rReusJoinProgressDataNative", ".rjpd"),
    ("rFieldDirectionInfoNative", ".fdi"),
    ("rAgingBtlBuddyTableNative", ".abbt"),
    ("rAgingBtlEnemySetTableNative", ".abest"),
    ("rAgingBtlStageTableNative", ".abst"),
    ("rAgingCheckBuddyNative", ".acb"),
    ("rAgingCheckEnaLayArmorNative", ".acela"),
    ("rAgingCheckNaviAccesoryNative", ".acna"),
    ("rAgingCheckPlArmorNative", ".acpa"),
    ("rAgingCheckWeaponNative", ".acwp"),
    ("rAgingFieldTableNative", ".aft"),
    ("rCheatCheckTableItemBattleNative", ".cctib"),
    ("rCheatCheckTableWeaponBowNative", ".cctbw"),
    ("rCheatCheckTableWeaponGunNative", ".cctgn"),
    ("rDoubleKizunaCameraOffsetNative", ".bdkc"),
    ("rDoubleKizunaMonsterConditionNative", ".bdkmc"),
    ("rDoubleKizunaMonsterOffsetNative", ".bdkm"),
    ("rDoubleKizunaSchedulerPathNative", ".bdkd"),
    ("rActionCommandDelayTimeDataNative", ".acdd"),
    ("rAnimationSecondParamNative", ".asp"),
    ("rGuiClearedDungeonItemParamNative", ".cdi"),
    ("rGuiColorDataNative", ".gcol"),
    ("rGuiFadeDataNative", ".gfad"),
    ("rGuiHatchBabyParamNative", ".ghbp"),
    ("rGuiModelDrawCameraParamNative", ".gmdc"),
    ("rGuiModelDrawWindowParamNative", ".gmdw"),
    ("rGuiMonsterModelParamNative", ".gmmp"),
    ("rGuiMultiVsPlayerParamNative", ".gmvp"),
    ("rGuiNpcModelParamNative", ".gnpc"),
    ("rGuiParamNative", ".gpm"),
    ("rGuiRiderCardBuddyParamNative", ".grcb"),
    ("rGuiStatusPlayerParamNative", ".gspp"),
    ("rGuiTraditionBuddyParamNative", ".gtbp"),
    ("rGuiWeaponModelParamNative", ".gwmp"),
    ("rAchievementIconNative", ".aic"),
    ("rCommandIconNative", ".cic"),
    ("rIconStatusDataNative", ".isd"),
    ("rItemIconNative", ".iic"),
    ("rMonsterIconNative", ".mic"),
    ("rSkillIconNative", ".sic"),
    ("rDramaMessageDataNative", ".drmd"),
    ("rFieldCommonMessageDataNative", ".fcmd"),
    ("rGameMessageDataNative", ".grmd"),
    ("rNpcMessageDataNative", ".ntlkd"),
    ("rTalkMessageDataNative", ".tlkd"),
    ("rOptionKeyConfigButtonDataNative", ".okbd"),
    ("rOptionKeyConfigDataNative", ".okd"),
    ("rOptionKeyConfigKeyboardDataNative", ".okkd"),
    ("rOptionLanguageDataNative", ".lad"),
    ("rOptionParamDataNative", ".opd"),
    ("rOptionSettingDataNative", ".osd"),
    ("rAmiiboGiftNative", ".agt"),
    ("rBattleBuddyConditionDataNative", ".bbcnd"),
    ("rBattleCmdCameraDataNative", ".bccam"),
    ("rBattleCmdIgnoreEnemyDataNative", ".bcige"),
    ("rBattleEffHitInfoDataNative", ".behi"),
    ("rBattleEnemyMCTblNative", ".bemct"),
    ("rBattleEventResourceDataNative", ".bert"),
    ("rBattleEventResultDataNative", ".berd"),
    ("rBattleEventTblNative", ".bet"),
    ("rBattleMorphChangeDataNative", ".bmcd"),
    ("rBattleMorphConditionDataNative", ".bmcnd"),
    ("rBattleNavirouFsmTableNative", ".bnft"),
    ("rBattleNavirouMessageNative", ".bnmt"),
    ("rBattleNavirouSetTableNative", ".bnst"),
    ("rBattleNavirouUniqueNative", ".bnut"),
    ("rBattlePartsConditionDataNative", ".bptcnd"),
    ("rBCATAppDataNative", ".bcatData"),
    ("rBingoBonusCategoryNative", ".bbc"),
    ("rBreakFieldObjectDataNative", ".bfofd"),
    ("rBuddyBtlMCDataNative", ".bdbcm"),
    ("rCharaCustomLogDataNative", ".chcl"),
    ("rCharaRemakeTicketDataNative", ".crd"),
    ("rDemoGalleryDataNative", ".dgd"),
    ("rDifficultyConvertCountNative", ".dcc"),
    ("rDifficultyConvertGameFlagNative", ".dcgf"),
    ("rDLCAppDataNative", ".dlcData"),
    ("rDLCViewDataNative", ".dlcView"),
    ("rDungeonChestLotTableNative", ".dclt"),
    ("rDungeonContainsDataNative", ".dcd"),
    ("rDungeonCreatePatternNative", ".dcp"),
    ("rDungeonEggMonsterDataNative", ".demd"),
    ("rDungeonEnemyFixedDataNative", ".defd"),
    ("rDungeonEnemyHomingDataNative", ".deh"),
    ("rDungeonEnemyLocatorDataNative", ".deloc"),
    ("rDungeonEnemyLotDataNative", ".deld"),
    ("rDungeonNestRarenessDataNative", ".dnrd"),
    ("rEggUniquePatternDataNative", ".eup"),
    ("rEnvCreatureDataNative", ".ecr"),
    ("rExpeditionFieldDataNative", ".exfd"),
    ("rExpeditionPolicyDataNative", ".expl"),
    ("rExpeditionSlotNumDataNative", ".esd"),
    ("rFieldAmbientDataNative", ".fldamb"),
    ("rFieldPartsDataNative", ".fpd"),
    ("rFieldPartsNameDataNative", ".fldpn"),
    ("rFieldSkyDataNative", ".fldsky"),
    ("rFieldSpotDataNative", ".flds"),
    ("rFixedDungeonConfigDataNative", ".fdcd"),
    ("rFortuneGiftNative", ".fgt"),
    ("rGeneRandomSetNative", ".grset"),
    ("rGiftBuddyTableNative", ".tgb"),
    ("rGiftEggTableNative", ".tge"),
    ("rGuiFontDataNative", ".fnd"),
    ("rGuiFontLanguageDataNative", ".gfld"),
    ("rGuiLocalizeTextureDataNative", ".ltd"),
    ("rGuiMessageDataNative", ".msgm"),
    ("rGuiWorldMapNative", ".gwm"),
    ("rHabitatDataNative", ".hbt"),
    ("rHardDungeonUIDataNative", ".hdu"),
    ("rHatchEggBonusDataNative", ".heb"),
    ("rEditCameraDataNative", ".ecd"),
    ("rEditColorPresetDataNative", ".ecp"),
    ("rEditEyeShapeDataNative", ".eed"),
    ("rEditFaceShapeDataNative", ".efd"),
    ("rEditHairstyleDataNative", ".ehd"),
    ("rEditMakeupTypeDataNative", ".emad"),
    ("rEditMouthShapeDataNative", ".emod"),
    ("rEditParamDataNative", ".epd"),
    ("rEditVoiceTypeDataNative", ".evd"),
    ("rLinkedDungeonDataNative", ".ldd"),
    ("rMelynxShopAccessoryDataNative", ".macd"),
    ("rMelynxShopArmorDataNative", ".mard"),
    ("rMelynxShopDataNative", ".msp"),
    ("rMelynxShopWeaponDataNative", ".mwd"),
    ("rMenuRiderNoteDataNative", ".mrnd"),
    ("rModTextureNoScaleDataNative", ".mtnscl"),
    ("rMonsterAdditionalShowTableNative", ".mas"),
    ("rMonsterBaseInfoDataNative", ".mbi"),
    ("rMHSoundEmitter", ".ses"),
    ("rMHSoundSequence", ".mss"),
    ("rSoundAttributeSe", ".aser"),
    ("rSoundEngine", ".engr"),
    ("rSoundEngineXml", ".engr.xml"),
    ("rSoundEngineValue", ".egvr"),
    ("rSoundMotionSe", ".mser"),
    ("rSoundSequenceSe", ".ssqr"),
    ("rSoundSimpleCurve", ".sscr"),
    ("rSoundSubMixerXml", ".smxr.xml"),
    ("rSoundSubMixer", ".smxr"),
    ("uSoundSubMixer::CurrentSubMixer", ".smxr"),
    ("rMonsterPartsTableNative", ".mpt"),
    ("rNavirouGuideDataNative", ".ngt"),
    ("rNpc2dFaceTexTableNative", ".nft"),
    ("rNpcAirouSetMotionDataNative", ".nasmd"),
    ("rNpcLayeredArmorDataNative", ".nlad"),
    ("rNpcSetMotionDataNative", ".nsmd"),
    ("rNpcTalkResourceDataNative", ".ntrp"),
    ("rNpcTalkZoneNative", ".ntz"),
    ("rPotEffectDataNative", ".pte"),
    ("rPotLevelDataNative", ".ptl"),
    ("rPotOfferingDataNative", ".pto"),
    ("rPotPrayingDataNative", ".ptp"),
    ("rPresetParamCharaCustomNative", ".tppcc"),
    ("rPresetParamLearningSkillSetNative", ".tppls"),
    ("rPresetParamOtomonNative", ".tppo"),
    ("rPresetParamOtomonGeneNative", ".tppog"),
    ("rRiderNoteDataRushNative", ".rndr"),
    ("rRideSkillTableNative", ".rst"),
    ("rSkillCalcNative", ".skc"),
    ("rSkillSetDataNative", ".wss"),
    ("rStableCapacityDataNative", ".scd"),
    ("rStatusChangeFlagsNative", ".scf"),
    ("rStatusDataNative", ".sdt"),
    ("rStoryQuestDataNative", ".sqd"),
    ("rStoryQuestDefineNative", ".sqdf"),
    ("rSubQuestConditionDataNative", ".sqccd"),
    ("rSubQuestDataRenewNative", ".suqd"),
    ("rSubQuestVeilDataNative", ".svd"),
    ("rSubstituteNpcTblNative", ".sntt"),
    ("rSummaryDataNative", ".smr"),
    ("rTalkDemoDefineDataNative", ".tdmspk"),
    ("rTrialCleanNativeDataNative", ".tcn"),
    ("rTutorialArrowDataNative", ".tad"),
    ("rTutorialLockDataNative", ".tld"),
    ("rVsItemSetDataNative", ".vsitemset"),
    ("rVsPrizeDataNative", ".vsprize"),
    ("rVsRuleDataNative", ".vsrule"),
    ("rSoundDemoControlNative", ".sdc"),
    ("rSoundDemoEnvControlNative", ".sdec"),
    ("rSoundDemoSeControlNative", ".sdsc"),
    ("rSoundGuiOperationNative", ".sgo"),
    ("rSoundInfoSeNative", ".siet"),
    ("rSoundInfoStreamNative", ".siets"),
    ("rSoundArchiveDataNative", ".samd"),
    ("rSoundArmorDataNative", ".sad"),
    ("rSoundBattleStageDataNative", ".sbsd"),
    ("rSoundBattleStageDefineNative", ".sbsdef"),
    ("rSoundBgmMonsterDataNative", ".sbmd"),
    ("rSoundFootstepDataNative", ".sftd"),
    ("rSoundFSMCommandBgmDataNative", ".sfcbd"),
    ("rSoundFSMCommandSeDataNative", ".sfcsd"),
    ("rSoundMonsterDataNative", ".smd"),
    ("rSoundMonsterEnvironmentalDataNative", ".smed"),
    ("rSoundMonsterKizunaDataNative", ".smkd"),
    ("rSoundNpcAirouDataNative", ".snad"),
    ("rSoundNpcDataNative", ".snd"),
    ("rSoundObjectDataNative", ".sod"),
    ("rSoundSceneVolumeNative", ".ssv"),
    ("rSoundWeaponDataNative", ".swd"),
    ("rSoundNpcVoicePathDataNative", ".snvpd"),
    ("rSoundPlayerVoicePathDataNative", ".spvpd"),
    ("rUnlockMixDataNative", ".ulm"),
    ("rUnlockProgressDataNative", ".ulp"),
    ("rUnlockScriptDataNative", ".uls"),
    ("rFacialPartsComboNative", ".fpc"),
    ("rFacialPartsControl", ".fpctl"),
    ("rObjectModelAttachGroupNative", ".omg"),
    ("rObjectModelAttachInfoNative", ".omi"),
    ("rObjectModelAttachSetData", ".omas"),
    ("rMonsterLookAtParamNative", ".mlka"),
    ("rKizunaStoneOfsNative", ".kofb"),
    ("rWeaponKindOfsNative", ".wko"),
    ("uSceneCapture::rCaptureTexture", ".tex"),
    ("cInstancingResource", ".ext"),
    ("rCheatCheckTableAccSkillNative", ".cctas"),
    ("rCheatCheckTableArmorNative", ".ccta"),
    ("rCheatCheckTableBuddyNative", ".cctb"),
    ("rCheatCheckTableBuddyFlagNative", ".cctbf"),
    ("rCheatCheckTableGeneNative", ".cctg"),
    ("rCheatCheckTableNaviAccNative", ".cctna"),
    ("rCheatCheckTableRangeNative", ".cctr"),
    ("rCheatCheckTableWeaponHamNative", ".ccthm"),
    ("rCheatCheckTableWeaponHueNative", ".ccthu"),
    ("rCheatCheckTableWeaponOneNative", ".cctwo"),
    ("rCheatCheckTableWeaponTwoNative", ".cctwt"),
    ("rBattleArenaDLCTableNative", ".badt"),
    ("rBattleArenaTrialTableNative", ".batt"),
    ("rBattleNaviTextEventNative", ".bte"),
    ("rBattleStatusEffectNative", ".bseff"),
    ("rBattleVsPorchPresetNative", ".bvspp"),
    ("rDLCItemTableNative", ".ditemp"),
    ("rDLCRegionTnmntTableNative", ".dtnmt"),
    ("rDLCSubQuestDataNative", ".dsuqd"),
    ("rDLCVsRuleTableNative", ".dvsrule"),
    ("rEnemyCameraParamNative", ".ecpd"),
    ("rLimitedShopDataNative", ".lshpd"),
    ("rLimitedShopPlaceDataNative", ".lshppd"),
    ("rLinkPrizeDataNative", ".lpd"),
    ("rMedalCompRewardNative", ".mcr"),
    ("rMonsterEnumConversionTableNative", ".mectd"),
    ("rNavirouAccessoryDataNative", ".nad"),
    ("rNestEggReviewANative", ".nstera"),
    ("rNestEggReviewBNative", ".nsterb"),
    ("rNestMessageNative", ".nstmsg"),
    ("rOtomonCameraParamNative", ".ocpd"),
    ("rPostmanRewardDataNative", ".pmrd"),
    ("rStaffRollCutDataNative", ".srcd"),
    ("rWorldMapMaskDataNative", ".wmmd"),
    ("rTalkDemoViewSpriteDataNative", ".tdvs"),
    ("rArmorParamNative", ".arp"),
    ("rDLCTableNative", ".dlc"),
    ("rMedalDataListNative", ".mdl"),
    ("rMyhouseBoxCameraDataNative", ".mbcd"),
    ("rStoryTalkBalloonNative", ".stb"),
    ("rWeaponParamNative", ".wpp"),
    ("rBattleEnemyFileNative", ".bef"),
    ("rConditionPriorityDataNative", ".cndp"),
    ("rGatherLevelTableNative", ".ghlt"),
    ("rLimitedShopNpcList", ".lsnl"),
    ("rMonsterBookDataNative", ".mbd"),
    ("rPresetParamNative", ".tpp"),
    ("rPresetParamEquipNative", ".tppe"),
    ("rPresetParamItemNative", ".tppi"),
    ("rPresetParamPlayerNative", ".tppp"),
    ("rSkillFlagNative", ".skf"),
    ("rAppMovie", ".dat"),
    ("rAppMovieIntermediate", ".wmv"),
    ("rCardPose", ".cps"),
    ("rRideParamNative", ".rdp"),
    ("rSequenceCameraList", ".scl"),
    ("rResourceNameForDevNative", ".rnmd"),
    ("rChestItemTableDataNative", ".cfid"),
    ("rGatherSetTableDataNative", ".gstd"),
    ("rFldPlParam_ARNative", ".fppar"),
    ("rFldPlParam_GRNative", ".fppgr"),
    ("rFldPlParam_NRNative", ".fppnr"),
    ("rFldPlParam_WRNative", ".fppwr"),
    ("rAccessoryDataNative", ".acd"),
    ("rAccessoryRareNative", ".acr"),
    ("rAccessorySkillNative", ".acs"),
    ("rArmorDataNative", ".ard"),
    ("rBattleArenaTableNative", ".bat"),
    ("rBattleCommonResourceNative", ".bcmr"),
    ("rBattleEnemySetNative", ".bes"),
    ("rBattleEnemyTblNative", ".bemt"),
    ("rBattleEnemyTblPlanNative", ".bemtp"),
    ("rBattleNpcTblNative", ".bnt"),
    ("rBattlePlayerTblNative", ".bplt"),
    ("rBattleResultBonusNative", ".brsb"),
    ("rBattleStageResourceNative", ".bstr"),
    ("rBattleWeaponTblNative", ".bwpt"),
    ("rBroilerFlavorDataNative", ".bfd"),
    ("rBuddyPathDataNative", ".bdypa"),
    ("rBuddyPlanDataNative", ".bdypl"),
    ("rCallingEncountDataNative", ".sce"),
    ("rConditionNameDataNative", ".cnd"),
    ("rDemoDataNative", ".dmd"),
    ("rDemoFlagDataNative", ".dfd"),
    ("rEggBaseColorDataNative", ".ebc"),
    ("rEncntEnemyPartyNative", ".eepd"),
    ("rEquiprShopDataNative", ".eshd"),
    ("rFieldAISetActNative", ".fasa"),
    ("rFieldAISetKindNative", ".fask"),
    ("rFieldEnemyPathDataNative", ".fedpa"),
    ("rFieldEnemyPlanDataNative", ".fedpl"),
    ("rFieldHuntingDataNative", ".fhd"),
    ("rFieldMotionPackageDataNative", ".fmpd"),
    ("rFieldNpcMotionNative", ".fnmd"),
    ("rFieldPlayerMotionDataNative", ".fpm"),
    ("rFieldSetFlagDataNative", ".fsfd"),
    ("rFurattoFieldDataNative", ".fofd"),
    ("rFurattoTrendDataNative", ".fotd"),
    ("rGalleryFlagDataNative", ".gfd"),
    ("rGatherCommentDataNative", ".gcd"),
    ("rGeneEditNative", ".ged"),
    ("rGeneLottingNative", ".glt"),
    ("rGeneralCountDataNative", ".gcd"),
    ("rGeneralFlagDataNative", ".gfd"),
    ("rGeneTableNative", ".gtb"),
    ("rItemDataNative", ".itm"),
    ("rItemMixNative", ".mix"),
    ("rMainQuestDataNative", ".mqsd"),
    ("rMapMarkerNative", ".mmk"),
    ("rMarkerDataNative", ".mkr"),
    ("rMaterialDataNative", ".matd"),
    ("rMergeStreamDataNative", ".asd"),
    ("rMixFlagNative", ".mxf"),
    ("rMonsterRankTableNative", ".mrt"),
    ("rNekoTaxiStationDataNative", ".nsd"),
    ("rNestHappeningNative", ".nhap"),
    ("rNestHappeningProbNative", ".nhapp"),
    ("rNpcAirouSetResourceLogDataNative", ".nasl"),
    ("rNpcSetResourceLogDataNative", ".npsl"),
    ("rReactionCommentDataNative", ".rcd"),
    ("rRiderNoteDataNative", ".rnd"),
    ("rRiderNoteLargeCategoryDataNative", ".rnld"),
    ("rRiderNotePageDataNative", ".rnpd"),
    ("rRiderNoteSmallCategoryDataNative", ".rnsd"),
    ("rRiderNoteThumbnailDataNative", ".rntd"),
    ("rShortDemoDataNative", ".sdm"),
    ("rSkillTableNative", ".skt"),
    ("rStChapDataNative", ".schd"),
    ("rStEpiDataNative", ".sed"),
    ("rStoryCountDataNative", ".scod"),
    ("rStoryDataNative", ".std"),
    ("rStoryFlagDataNative", ".stfd"),
    ("rStPrComDataNative", ".spcd"),
    ("rSubQuestCountDataNative", ".sqcd"),
    ("rSubQuestFlagDataNative", ".sqfd"),
    ("rSubStEpiDataNative", ".ssed"),
    ("rSystemCountDataNative", ".sycd"),
    ("rTalkDemoActorDataNative", ".tdmact"),
    ("rTalkDemoCommandDataNative", ".tdmcmd"),
    ("rTalkDemoDataNative", ".tdmd"),
    ("rTalkDemoEffectDataNative", ".tdmeff"),
    ("rTalkDemoFaceDataNative", ".tdmfc"),
    ("rTalkDemoMotionDataNative", ".tdmmot"),
    ("rTalkDemoPoseDataNative", ".tdmpos"),
    ("rTalkDemoScript", ".tdms"),
    ("rTalkInfoDataNative", ".tid"),
    ("rTalkMsgDataNative", ".tmd"),
    ("rTalkSelectDataNative", ".tstd"),
    ("rWeaponDataNative", ".wpd"),
    ("rFieldGateDataNative", ".fgd"),
    ("rMHFSMList", ".fslm"),
    ("rWipeData", ".wpdt"),
    ("rBattleAtkNative", ".btat"),
    ("rFieldBuddyMotionDataNative", ".fbd"),
    ("rFieldDataNative", ".fld"),
    ("rFieldEnemySetDataNative", ".fesd"),
    ("rFieldIngredientSetDataNative", ".fisd"),
    ("rFieldMotionDataNative", ".fmd"),
    ("rFieldOrnamentSetDataNative", ".fosd"),
    ("rFieldPredatorDataNative", ".fprd"),
    ("rFieldSchedulerSetDataNative", ".fssd"),
    ("rMonsterRaceDataNative", ".mrd"),
    ("rNpcTalkNative", ".ntk"),
    ("rShopDataNative", ".shp"),
    ("rSystemFlagDataNative", ".sfd"),
    ("rTalkDataNative", ".tlk"),
    ("rProofEffectColorControl", ".pec"),
    ("rProofEffectList", ".pel"),
    ("rProofEffectMotSequenceList", ".psl"),
    ("rProofEffectParamScript", ".pep"),
    ("rCameraData", ".cmdt"),
    ("rColorLinkColor", ".clc"),
    ("rColorLinkInfo", ".cli"),
    ("rConditionChangeInfo", ".ccinfo"),
    ("rDollPartsDisp", ".dpd"),
    ("rGroundAdjustment", ".gar"),
    ("rModelEasyAnime", ".mea"),
    ("rModelInPath", ".mip"),
    ("rMonsterPartsDisp", ".mpd"),
    ("rNavirouPartsDisp", ".npd"),
    ("rPartsVisibleInfo", ".pvi"),
    ("rSchedulerPreLoadList", ".spll"),
    ("rShadowParamNative", ".swp"),
    ("rVirtualJoint", ".vjr"),
    ("rWeaponGimmickInfo", ".wgi"),
    ("rWeaponOfsForBodyNative", ".wofb"),
    ("cResource", ".ext"),
    ("rModel", ".mod"),
    ("rMotionList", ".lmt"),
    ("rTexture", ".tex"),
    ("rCollision", ".sbc"),
    ("rAIWayPointGraph", ".gway"),
    ("rScheduler", ".sdl"),
    ("rArchive", ".arc"),
    ("rCnsTinyChain", ".ctc"),
    ("rChain", ".chn"),
    ("rChainCol", ".ccl"),
    ("rAIFSM", ".fsm"),
    ("rAIFSMList", ".fsl"),
    ("rAIConditionTree", ".cdt"),
    ("rCameraList", ".lcm"),
    ("rGUI", ".gui"),
    ("rRenderTargetTexture", ".rtex"),
    ("rEffect2D", ".e2d"),
    ("rGUIFont", ".gfd"),
    ("rGUIIconInfo", ".gii"),
    ("rGUIStyle", ".gst"),
    ("rGUIMessage", ".gmd"),
    ("rDeformWeightMap", ".dwm"),
    ("rSwingModel", ".swm"),
    ("rVibration", ".vib"),
    ("rSoundRequest", ".srqr"),
    ("rSoundStreamRequest", ".stqr"),
    ("rSoundCurveSet", ".scsr"),
    ("rSoundDirectionalSet", ".sdsr"),
    ("rSoundEQ", ".equr"),
    ("rSoundReverb", ".revr"),
    ("rSoundCurveXml", ".scvr.xml"),
    ("rSoundDirectionalCurveXml", ".sdcr.xml"),
    ("rSoundBank", ".sbkr"),
    ("rSoundPhysicsRigidBody", ".sprr"),
    ("rSoundPhysicsSoftBody", ".spsr"),
    ("rSoundPhysicsJoint", ".spjr"),
    ("rShader2", ".mfx"),
    ("rImplicitSurface", ".is"),
    ("rMovie", ".ext"),
    ("rMovieOnMemory", ".mem.wmv"),
    ("rMovieOnDisk", ".wmvd"),
    ("rMovieOnMemoryInterMediate", ".mem.wmv"),
    ("rMovieOnDiskInterMediate", ".wmvd"),
    ("rSceneTexture", ".stex"),
    ("rGrass2", ".gr2"),
    ("rGrass2Setting", ".gr2s"),
    ("rOccluder", ".occ"),
    ("rISC", ".isc"),
    ("rSky", ".sky"),
    ("rStarCatalog", ".stc"),
    ("rCloud", ".cld"),
    ("rSoundSourcePC", ".ext"),
    ("rSoundSourceMSADPCM", ".xsew"),
    ("rSoundSourceOggVorbis", ".sngw"),
    ("rEffectList", ".efl"),
    ("rCollisionHeightField", ".sbch"),
    ("rCnsIK", ".ik"),
    ("rShaderPackage", ".spkg"),
    ("rShaderCache", ".sch"),
    ("rMaterial", ".mrl"),
    ("rSoundSpeakerSetXml", ".sssr.xml"),
    ("rCollisionObj", ".obc"),
    ("rGrass", ".grs"),
    ("rConstraint", ".ext"),
    ("rCnsLookAt", ".lat"),
    ("rEffectAnim", ".ean"),
    ("rEffectStrip", ".efs"),
    ("rVertices", ".vts"),
    ("rNulls", ".nls"),
    ("rAI", ".ais"),
    ("rSoundPhysicsList", ".splr"),
    ("rFacialAnimation", ".fca"),
    ("rMetaSet", ".mst"),
    ("rMetaSetXml", ".mst.xml"),
    ("rCnsTinyIK", ".tik"),
    ("rCnsScaleNormalize", ".scnl"),
    ("rCnsRotateLimit", ".lim"),
    ("rCnsMatrix", ".mtx"),
    ("rCnsJointOffset", ".jof"),
    ("rCnsParent", ".par"),
    ("rCnsParentN", ".pan"),
    ("rCnsLookAtEyeball", ".eye"),
    ("rGraphPatch", ".gpt"),
    ("rGrassWind", ".grw"),
    ("rConvexHull", ".hul"),
    ("rGeometry2", ".geo2"),
    ("rGeometry3", ".geo3"),
    ("rSerial", ".srt"),
    ("rDynamicSbc", ".dsc"),
    ("rGeometry2Group", ".geog")
  ]

  /** The registry key of a resource class: its type hash as a number. */
  function TypeHash(name: string): nat
  {
    JamCrc(name) as nat
  }

  /** The hash-to-extension dictionary built from `entries`, assigning in order. */
  function Register(entries: seq<(string, string)>): map<nat, string>
  {
    RegisterBy(entries, TypeHash)
  }

  /** The dictionary built with any key function, assigning in order. */
  function RegisterBy(entries: seq<(string, string)>, key: string -> nat): map<nat, string>
  {
    if entries == [] then map[]
    else
      var last := entries[|entries| - 1];
      RegisterBy(entries[..|entries| - 1], key)[key(last.0) := last.1]
  }

  /** `fileExts`. */
  function FileExts(): map<nat, string>
  {
    Register(TypeNames)
  }

  /** Some class name among `entries` has key `h`. */
  predicate Named(entries: seq<(string, string)>, key: string -> nat, h: nat)
  {
    exists i :: 0 <= i < |entries| && key(entries[i].0) == h
  }

  lemma {:induction false} RegisterByKeys(entries: seq<(string, string)>, key: string -> nat, h: nat)
    ensures h in RegisterBy(entries, key) <==> Named(entries, key, h)
  {
    if entries != [] {
      var init := entries[..|entries| - 1];
      RegisterByKeys(init, key, h);
      if Named(init, key, h) {
        var i :| 0 <= i < |init| && key(init[i].0) == h;
        assert entries[i] == init[i];
      }
      if Named(entries, key, h) {
        var i :| 0 <= i < |entries| && key(entries[i].0) == h;
        if i < |init| {
          assert init[i] == entries[i];
        }
      }
    }
  }

  /** A hash is registered exactly when some class name in the table hashes to it. */
  lemma RegisterKeys(entries: seq<(string, string)>, h: nat)
    ensures h in Register(entries) <==> exists i :: 0 <= i < |entries| && TypeHash(entries[i].0) == h
  {
    RegisterByKeys(entries, TypeHash, h);
  }

  lemma {:induction false} RegisterByLastWins(entries: seq<(string, string)>, key: string -> nat, j: nat)
    requires j < |entries|
    requires forall i :: j < i < |entries| ==> key(entries[i].0) != key(entries[j].0)
    ensures key(entries[j].0) in RegisterBy(entries, key)
    ensures RegisterBy(entries, key)[key(entries[j].0)] == entries[j].1
  {
    var init := entries[..|entries| - 1];
    if j < |entries| - 1 {
      assert forall i :: j < i < |init| ==> init[i] == entries[i];
      RegisterByLastWins(init, key, j);
      assert init[j] == entries[j];
    }
  }

  /**
    The extension registered for a class name is the one of the last entry
    whose name has the same hash.
  */
  lemma RegisterLastWins(entries: seq<(string, string)>, j: nat)
    requires j < |entries|
    requires forall i :: j < i < |entries| ==> TypeHash(entries[i].0) != TypeHash(entries[j].0)
    ensures TypeHash(entries[j].0) in Register(entries)
    ensures Register(entries)[TypeHash(entries[j].0)] == entries[j].1
  {
    RegisterByLastWins(entries, TypeHash, j);
  }

  lemma {:induction false} RegisterByValues(entries: seq<(string, string)>, key: string -> nat, ext: string)
    requires ext in RegisterBy(entries, key).Values
    ensures exists i :: 0 <= i < |entries| && entries[i].1 == ext
  {
    var init := entries[..|entries| - 1];
    var last := entries[|entries| - 1];
    var m := RegisterBy(entries, key);
    var h :| h in m && m[h] == ext;
    if h != key(last.0) {
      assert RegisterBy(init, key)[h] == m[h];
      RegisterByValues(init, key, ext);
      var i :| 0 <= i < |init| && init[i].1 == ext;
      assert entries[i] == init[i];
    }
  }

  /** Every registered extension comes from some entry of the table. */
  lemma RegisterValues(entries: seq<(string, string)>, ext: string)
    requires ext in Register(entries).Values
    ensures exists i :: 0 <= i < |entries| && entries[i].1 == ext
  {
    RegisterByValues(entries, TypeHash, ext);
  }
}
